/** What a drain, a send and a discard do to every single entry, told from the entries alone. */
module OutboxDraining {
  import opened Outbox
  import opened OutboxConservation

  /** The drain gets to `e`: no older entry of its queue came back unknown. */
  predicate Reached(queue: seq<Entry>, wire: nat -> Delivery, e: Entry) {
    e in queue && forall o <- queue | o.id < e.id :: wire(o.id) != Undelivered
  }

  /** A reached entry stays sealed only if nothing is known of it and it has failed fewer than five drains. */
  predicate Stays(wire: nat -> Delivery, e: Entry) { wire(e.id) == Undelivered && e.attempts + 1 < MAX_ATTEMPTS }

  function CountedUp(e: Entry): Entry { e.(attempts := e.attempts + 1) }

  /** What is left of the entries that were reached. */
  predicate IsLeft(queue: seq<Entry>, wire: nat -> Delivery, e: Entry) {
    exists o <- queue :: Reached(queue, wire, o) && Stays(wire, o) && e == CountedUp(o)
  }

  /** Why a reached entry is gone, if it is. */
  function FateOfTry(wire: nat -> Delivery, e: Entry): Fate {
    if wire(e.id) == Delivered then Taken else if wire(e.id) == Rejected then Refused else Unrecoverable
  }

  /** What draining one queue makes of the entries, told entry by entry. */
  ghost predicate Drained(s: State, t: State, queue: seq<Entry>, wire: nat -> Delivery) {
    && Ascending(t.entries)
    && (forall e: Entry :: e in t.entries <==> (e in s.entries && !Reached(queue, wire, e)) || IsLeft(queue, wire, e))
    && (forall e <- queue | Reached(queue, wire, e) && !Stays(wire, e) :: Record(e, FateOfTry(wire, e)) in t.settled)
    && (t.down <==> exists e <- queue :: Reached(queue, wire, e) && wire(e.id) == Undelivered)
    && s.settled <= t.settled
  }

  /** The new attempts are those reached, each once, in the order of the entries, with what the wire said. */
  ghost predicate Attempted(tries: seq<Attempt>, queue: seq<Entry>, wire: nat -> Delivery) {
    && (forall a <- tries :: exists e <- queue :: Reached(queue, wire, e) && a == Attempt(e.id, wire(e.id)))
    && (forall e <- queue | Reached(queue, wire, e) :: Attempt(e.id, wire(e.id)) in tries)
    && (forall i, j | 0 <= i < j < |tries| :: tries[i].id < tries[j].id)
  }

  lemma {:induction false} NoneReached(wire: nat -> Delivery)
    ensures (forall e :: !Reached([], wire, e)) && Attempted([], [], wire)
  {
  }

  /** Once the first entry of a queue is answered, the rest is reached as by itself. */
  lemma {:induction false} ReachedLater(queue: seq<Entry>, wire: nat -> Delivery, e: Entry)
    requires queue != [] && Ascending(queue)
    ensures Reached(queue, wire, e) <==>
              e == queue[0] || (wire(queue[0].id) != Undelivered && Reached(queue[1..], wire, e))
  {
    AscendingTail(queue);
    assert queue[0] in queue;
    assert forall o :: o in queue <==> o == queue[0] || o in queue[1..];
  }

  lemma {:induction false} OldestIsUnique(entries: seq<Entry>, e: Entry)
    requires Ascending(entries) && e in entries
    ensures forall o <- entries :: o.id == e.id ==> o == e
  {
  }

  function Tries(queue: seq<Entry>, wire: nat -> Delivery): seq<Attempt> {
    if |queue| == 0 then []
    else
      [Attempt(queue[0].id, wire(queue[0].id))]
      + (if wire(queue[0].id) == Undelivered then [] else Tries(queue[1..], wire))
  }

  lemma {:induction false} QueueTries(s: State, queue: seq<Entry>, wire: nat -> Delivery)
    requires !s.down
    ensures DrainQueue(s, queue, wire).attempts == s.attempts + Tries(queue, wire)
    decreases |queue|
  {
    if |queue| > 0 {
      var e := queue[0];
      var first := Attempt(e.id, wire(e.id));
      if wire(e.id) == Undelivered {
        assert Tries(queue, wire) == [first];
      } else {
        QueueTries(Answered(s, e, wire(e.id)), queue[1..], wire);
        assert s.attempts + [first] + Tries(queue[1..], wire) == s.attempts + ([first] + Tries(queue[1..], wire));
      }
    }
  }

  lemma {:induction false} TriesAreReached(queue: seq<Entry>, wire: nat -> Delivery)
    requires Ascending(queue)
    ensures Attempted(Tries(queue, wire), queue, wire)
    decreases |queue|
  {
    if queue != [] {
      var e, rest := queue[0], queue[1..];
      var first := Attempt(e.id, wire(e.id));
      AscendingTail(queue);
      forall o ensures Reached(queue, wire, o) <==> o == e || (wire(e.id) != Undelivered && Reached(rest, wire, o)) {
        ReachedLater(queue, wire, o);
      }
      assert forall o :: o in queue <==> o == e || o in rest;
      hide Reached, Ascending;
      if wire(e.id) == Undelivered {
        assert Tries(queue, wire) == [first];
      } else {
        TriesAreReached(rest, wire);
        FirstTryAttempted(first, Tries(rest, wire), queue, rest, wire);
      }
    }
  }

  lemma {:induction false} FirstTryAttempted(
    first: Attempt, later: seq<Attempt>, queue: seq<Entry>, rest: seq<Entry>, wire: nat -> Delivery)
    requires queue != [] && first == Attempt(queue[0].id, wire(queue[0].id)) && Attempted(later, rest, wire)
    requires forall o :: o in queue <==> o == queue[0] || o in rest
    requires forall o <- rest :: queue[0].id < o.id
    requires forall o :: Reached(queue, wire, o) <==> o == queue[0] || Reached(rest, wire, o)
    ensures Attempted([first] + later, queue, wire)
  {
    hide Reached;
    var tries := [first] + later;
    assert forall a :: a in tries <==> a == first || a in later;
    forall i, j | 0 <= i < j < |tries| ensures tries[i].id < tries[j].id {
      assert tries[j] == later[j - 1];
      if i > 0 { assert tries[i] == later[i - 1]; } else { assert later[j - 1] in later; }
    }
  }

  lemma {:induction false} BumpedMembers(entries: seq<Entry>, o: Entry, e: Entry)
    requires Ascending(entries) && o in entries
    ensures e in Bumped(entries, o.id) <==> (e in entries && e != o) || e == CountedUp(o)
  {
    BumpedIs(entries, o.id);
    OldestIsUnique(entries, o);
    var bumped := Bumped(entries, o.id);
    hide Bumped, Ascending;
    var k :| 0 <= k < |entries| && entries[k] == o;
    assert bumped[k] == CountedUp(o);
    if e in entries && e != o {
      var i :| 0 <= i < |entries| && entries[i] == e;
      assert bumped[i] == e;
    }
    if e in bumped {
      var i :| 0 <= i < |bumped| && bumped[i] == e;
      assert entries[i] in entries;
    }
  }

  lemma {:induction false} FailureDrains(s: State, queue: seq<Entry>, wire: nat -> Delivery)
    requires !s.down && Ascending(s.entries) && Ascending(queue) && queue != [] && queue[0] in s.entries
    requires wire(queue[0].id) == Undelivered
    ensures Drained(s, Failed(s, queue[0]), queue, wire)
  {
    var o := queue[0];
    forall e ensures Reached(queue, wire, e) <==> e == o { ReachedLater(queue, wire, e); }
    assert o in queue;
    WithoutSelects(s.entries, o.id);
    BumpedAscends(s.entries, o.id);
    OldestIsUnique(s.entries, o);
    forall e ensures e in Bumped(s.entries, o.id) <==> (e in s.entries && e != o) || e == CountedUp(o) {
      BumpedMembers(s.entries, o, e);
    }
    hide Reached, Ascending, Without, Bumped;
  }

  lemma {:induction false} AnswerDrains(s: State, queue: seq<Entry>, wire: nat -> Delivery, t: State)
    requires Ascending(s.entries) && Ascending(queue) && queue != [] && queue[0] in s.entries
    requires wire(queue[0].id) != Undelivered
    requires Drained(Answered(s, queue[0], wire(queue[0].id)), t, queue[1..], wire)
    ensures Drained(s, t, queue, wire)
  {
    var o, rest := queue[0], queue[1..];
    forall e ensures Reached(queue, wire, e) <==> e == o || Reached(rest, wire, e) { ReachedLater(queue, wire, e); }
    assert forall e :: e in queue <==> e == o || e in rest;
    WithoutSelects(s.entries, o.id);
    OldestIsUnique(s.entries, o);
    hide Reached, Ascending, Without;
    forall e ensures IsLeft(queue, wire, e) <==> IsLeft(rest, wire, e) {}
    assert Record(o, FateOfTry(wire, o)) in Answered(s, o, wire(o.id)).settled;
  }

  lemma {:induction false} QueueDrains(s: State, queue: seq<Entry>, wire: nat -> Delivery)
    requires !s.down && Ascending(s.entries) && Ascending(queue) && forall e <- queue :: e in s.entries
    ensures Drained(s, DrainQueue(s, queue, wire), queue, wire)
    decreases |queue|
  {
    if queue == [] {
    } else {
      var o := queue[0];
      assert o in queue;
      if wire(o.id) == Undelivered {
        FailureDrains(s, queue, wire);
      } else {
        var next := Answered(s, o, wire(o.id));
        WithoutSelects(s.entries, o.id);
        AscendingTail(queue);
        assert forall e <- queue[1..] :: e in queue;
        hide Drained, Without, Ascending;
        QueueDrains(next, queue[1..], wire);
        AnswerDrains(s, queue, wire, DrainQueue(next, queue[1..], wire));
      }
    }
  }

  // Both channels

  /**
   * The drain gets to `e`: its channel has a wire, no older entry of the channel came back unknown, and, for an
   * error report, no usage entry did.
   */
  predicate Gets(entries: seq<Entry>, wires: set<Channel>, wire: nat -> Delivery, e: Entry) {
    && e in entries && e.channel in wires
    && (forall o <- entries | o.channel == e.channel && o.id < e.id :: wire(o.id) != Undelivered)
    && (e.channel == Errors && Usage in wires ==> forall o <- entries | o.channel == Usage :: wire(o.id) != Undelivered)
  }

  function Queue(entries: seq<Entry>, c: Channel, wires: set<Channel>): seq<Entry> {
    if c in wires then OfChannel(entries, c) else []
  }

  lemma {:induction false} QueueIs(entries: seq<Entry>, c: Channel, wires: set<Channel>)
    ensures forall e :: e in Queue(entries, c, wires) <==> e in entries && e.channel == c && c in wires
    ensures Ascending(entries) ==> Ascending(Queue(entries, c, wires))
  {
    ChannelsSplit(entries, c);
  }

  lemma {:induction false} ChannelDrains(s: State, c: Channel, wires: set<Channel>, wire: nat -> Delivery)
    requires !s.down && Ascending(s.entries)
    ensures var t, queue := DrainChannel(s, c, wires, wire), Queue(s.entries, c, wires);
            && Drained(s, t, queue, wire) && t.attempts == s.attempts + Tries(queue, wire)
            && Attempted(Tries(queue, wire), queue, wire)
  {
    var queue := Queue(s.entries, c, wires);
    QueueIs(s.entries, c, wires);
    TriesAreReached(queue, wire);
    if c in wires {
      QueueDrains(s, queue, wire);
      QueueTries(s, queue, wire);
    } else {
      assert s.attempts + [] == s.attempts;
    }
  }

  /** Draining the usage entries leaves the error reports to be drained as they were. */
  lemma {:induction false} ErrorsWait(s: State, t: State, wires: set<Channel>, wire: nat -> Delivery)
    requires Drained(s, t, Queue(s.entries, Usage, wires), wire)
    ensures forall e :: e in Queue(t.entries, Errors, wires) <==> e in Queue(s.entries, Errors, wires)
  {
    QueueIs(s.entries, Usage, wires);
    QueueIs(s.entries, Errors, wires);
    QueueIs(t.entries, Errors, wires);
    hide Queue, Ascending;
  }

  lemma {:induction false} GetsIs(entries: seq<Entry>, wires: set<Channel>, wire: nat -> Delivery, e: Entry)
    ensures var usage, errors := Queue(entries, Usage, wires), Queue(entries, Errors, wires);
            Gets(entries, wires, wire, e) <==>
              Reached(usage, wire, e) || (Reached(errors, wire, e) && forall o <- usage :: wire(o.id) != Undelivered)
  {
    QueueIs(entries, Usage, wires);
    QueueIs(entries, Errors, wires);
    hide Queue;
  }

  /** Some entry of a queue came back unknown exactly when the drain reached one that did: the oldest such. */
  lemma {:induction false} OldestUnknown(queue: seq<Entry>, wire: nat -> Delivery)
    requires Ascending(queue)
    ensures (exists e <- queue :: Reached(queue, wire, e) && wire(e.id) == Undelivered)
              <==> exists e <- queue :: wire(e.id) == Undelivered
    decreases |queue|
  {
    if queue != [] {
      AscendingTail(queue);
      OldestUnknown(queue[1..], wire);
      forall e ensures Reached(queue, wire, e) <==>
        e == queue[0] || (wire(queue[0].id) != Undelivered && Reached(queue[1..], wire, e))
      {
        ReachedLater(queue, wire, e);
      }
      assert forall e :: e in queue <==> e == queue[0] || e in queue[1..];
      hide Reached, Ascending;
    }
  }

  /** What a whole drain makes of the entries. */
  ghost predicate DrainedAll(s: State, t: State, wires: set<Channel>, wire: nat -> Delivery) {
    && Ascending(t.entries)
    && (forall e: Entry :: e in t.entries <==>
          (e in s.entries && !Gets(s.entries, wires, wire, e))
          || (exists o <- s.entries :: Gets(s.entries, wires, wire, o) && Stays(wire, o) && e == CountedUp(o)))
    && (forall e <- s.entries | Gets(s.entries, wires, wire, e) && !Stays(wire, e) ::
          Record(e, FateOfTry(wire, e)) in t.settled)
    && (t.down <==> exists e <- s.entries :: Gets(s.entries, wires, wire, e) && wire(e.id) == Undelivered)
  }

  lemma {:induction false} UsageAlone(s: State, t: State, wires: set<Channel>, wire: nat -> Delivery)
    requires Ascending(s.entries) && Drained(s, t, Queue(s.entries, Usage, wires), wire) && t.down
    ensures DrainedAll(s, t, wires, wire)
  {
    var usage := Queue(s.entries, Usage, wires);
    QueueIs(s.entries, Usage, wires);
    GetsWhenFailed(s, t, wires, wire);
    hide Gets, Queue, Ascending, Stays;
    assert forall e | Reached(usage, wire, e) :: e in usage && e in s.entries;
  }

  /** With every usage entry answered, what is reached is reached in one queue or the other. */
  lemma {:induction false} GetsAfter(s: State, m: State, wires: set<Channel>, wire: nat -> Delivery)
    requires Ascending(s.entries) && Drained(s, m, Queue(s.entries, Usage, wires), wire) && !m.down
    ensures var usage, later := Queue(s.entries, Usage, wires), Queue(m.entries, Errors, wires);
            && (forall e :: Gets(s.entries, wires, wire, e) <==> Reached(usage, wire, e) || Reached(later, wire, e))
            && (forall e | Reached(usage, wire, e) :: e in s.entries && !Stays(wire, e) && wire(e.id) != Undelivered)
            && (forall e | Reached(later, wire, e) :: e in s.entries && !Reached(usage, wire, e))
  {
    var usage, errors, later :=
      Queue(s.entries, Usage, wires), Queue(s.entries, Errors, wires), Queue(m.entries, Errors, wires);
    QueueIs(s.entries, Usage, wires);
    QueueIs(s.entries, Errors, wires);
    OldestUnknown(usage, wire);
    ErrorsWait(s, m, wires, wire);
    forall e ensures Gets(s.entries, wires, wire, e) <==> Reached(usage, wire, e) || Reached(later, wire, e) {
      GetsIs(s.entries, wires, wire, e);
    }
    AllAnswered(s, m, usage, wire);
    hide Gets, Queue, Ascending, Stays;
    assert forall e | Reached(usage, wire, e) :: e in usage;
    assert forall e | Reached(later, wire, e) :: e in errors;
  }

  lemma {:induction false} BothDrain(s: State, m: State, t: State, wires: set<Channel>, wire: nat -> Delivery)
    requires Ascending(s.entries) && Ascending(m.entries)
    requires Drained(s, m, Queue(s.entries, Usage, wires), wire) && !m.down
    requires Drained(m, t, Queue(m.entries, Errors, wires), wire)
    ensures DrainedAll(s, t, wires, wire)
  {
    var usage, later := Queue(s.entries, Usage, wires), Queue(m.entries, Errors, wires);
    GetsAfter(s, m, wires, wire);
    AllAnswered(s, m, usage, wire);
    InQueue(usage, wire);
    InQueue(later, wire);
    hide Gets, Queue, Ascending, Stays, Reached;
  }

  lemma {:induction false} InQueue(queue: seq<Entry>, wire: nat -> Delivery)
    ensures forall e | Reached(queue, wire, e) :: e in queue
  {
  }

  /** A queue that is answered to its end leaves nothing of it behind, and takes nothing else. */
  lemma {:induction false} AllAnswered(s: State, m: State, queue: seq<Entry>, wire: nat -> Delivery)
    requires Drained(s, m, queue, wire) && !m.down
    ensures forall e :: e in m.entries <==> e in s.entries && !Reached(queue, wire, e)
    ensures forall e | Reached(queue, wire, e) :: !Stays(wire, e)
  {
    hide Ascending;
  }

  /** One attempt comes before another: usage entries first, and the entries of a channel oldest first. */
  predicate Earlier(entries: seq<Entry>, x: nat, y: nat) {
    exists d, e | d in entries && e in entries ::
      d.id == x && e.id == y && ((d.channel == Usage && e.channel == Errors) || (d.channel == e.channel && d.id < e.id))
  }

  /** The attempts of a whole drain: those it gets to, each with what the wire said, in order. */
  ghost predicate AttemptedAll(
    tries: seq<Attempt>, entries: seq<Entry>, wires: set<Channel>, wire: nat -> Delivery)
  {
    && (forall a <- tries :: exists e <- entries :: Gets(entries, wires, wire, e) && a == Attempt(e.id, wire(e.id)))
    && (forall e <- entries | Gets(entries, wires, wire, e) :: Attempt(e.id, wire(e.id)) in tries)
    && (forall i, j | 0 <= i < j < |tries| :: Earlier(entries, tries[i].id, tries[j].id))
  }

  lemma {:induction false} JoinTries(
    usage: seq<Attempt>, errors: seq<Attempt>, s: State, u: seq<Entry>, l: seq<Entry>, wires: set<Channel>,
    wire: nat -> Delivery)
    requires Attempted(usage, u, wire) && Attempted(errors, l, wire)
    requires forall e <- u :: e in s.entries && e.channel == Usage
    requires forall e <- l :: e in s.entries && e.channel == Errors
    requires forall e :: Gets(s.entries, wires, wire, e) <==> Reached(u, wire, e) || Reached(l, wire, e)
    ensures AttemptedAll(usage + errors, s.entries, wires, wire)
  {
    hide Gets, Reached;
    var tries := usage + errors;
    InQueue(u, wire);
    InQueue(l, wire);
    assert forall a :: a in tries <==> a in usage || a in errors;
    forall i, j | 0 <= i < j < |tries| ensures Earlier(s.entries, tries[i].id, tries[j].id) {
      TryIsOf(if i < |usage| then usage else errors, if i < |usage| then u else l, wire, tries[i]);
      TryIsOf(if j < |usage| then usage else errors, if j < |usage| then u else l, wire, tries[j]);
    }
  }

  lemma {:induction false} TryIsOf(tries: seq<Attempt>, queue: seq<Entry>, wire: nat -> Delivery, a: Attempt)
    requires Attempted(tries, queue, wire) && a in tries
    ensures exists e <- queue :: e.id == a.id
  {
    hide Reached;
  }

  lemma {:induction false} DrainIsBoth(s: State, wires: set<Channel>, wire: nat -> Delivery)
    ensures Drain(s, wires, wire) == DrainChannel(DrainChannel(s, Usage, wires, wire), Errors, wires, wire)
  {
  }

  /** The two halves of a drain: the usage entries on `s`, then the error reports on what that leaves. */
  lemma {:induction false} Halves(s: State, wires: set<Channel>, wire: nat -> Delivery)
    requires Ascending(s.entries) && !s.down
    ensures var m := DrainChannel(s, Usage, wires, wire); var usage := Queue(s.entries, Usage, wires);
            && Ascending(m.entries) && Drained(s, m, usage, wire) && m.attempts == s.attempts + Tries(usage, wire)
            && Attempted(Tries(usage, wire), usage, wire)
            && (m.down ==> Drain(s, wires, wire) == m)
            && (!m.down ==>
              var t, later := Drain(s, wires, wire), Queue(m.entries, Errors, wires);
              && Drained(m, t, later, wire) && t.attempts == m.attempts + Tries(later, wire)
              && Attempted(Tries(later, wire), later, wire))
  {
    var m := DrainChannel(s, Usage, wires, wire);
    ChannelDrains(s, Usage, wires, wire);
    assert Ascending(m.entries);
    DrainIsBoth(s, wires, wire);
    if !m.down {
      hide *;
      ChannelDrains(m, Errors, wires, wire);
    } else {
      assert DrainChannel(m, Errors, wires, wire) == m;
    }
  }

  lemma {:induction false} DrainLeaves(s: State, wires: set<Channel>, wire: nat -> Delivery)
    requires Ascending(s.entries) && !s.down
    ensures DrainedAll(s, Drain(s, wires, wire), wires, wire)
  {
    hide *;
    var m := DrainChannel(s, Usage, wires, wire);
    Halves(s, wires, wire);
    if m.down { UsageAlone(s, m, wires, wire); } else { BothDrain(s, m, Drain(s, wires, wire), wires, wire); }
  }

  lemma {:induction false} DrainTries(s: State, wires: set<Channel>, wire: nat -> Delivery)
    returns (tries: seq<Attempt>)
    requires Ascending(s.entries) && !s.down
    ensures Drain(s, wires, wire).attempts == s.attempts + tries && AttemptedAll(tries, s.entries, wires, wire)
  {
    hide *;
    var m := DrainChannel(s, Usage, wires, wire);
    var usage, later := Queue(s.entries, Usage, wires), Queue(m.entries, Errors, wires);
    Halves(s, wires, wire);
    QueueIs(s.entries, Usage, wires);
    if m.down {
      tries := Tries(usage, wire);
      FailedTries(s, m, wires, wire);
    } else {
      tries := Tries(usage, wire) + Tries(later, wire);
      GetsAfter(s, m, wires, wire);
      ErrorsWait(s, m, wires, wire);
      QueueIs(s.entries, Errors, wires);
      JoinTries(Tries(usage, wire), Tries(later, wire), s, usage, later, wires, wire);
      assert s.attempts + Tries(usage, wire) + Tries(later, wire)
          == s.attempts + (Tries(usage, wire) + Tries(later, wire));
    }
  }

  lemma {:induction false} FailedTries(s: State, m: State, wires: set<Channel>, wire: nat -> Delivery)
    requires Ascending(s.entries) && Drained(s, m, Queue(s.entries, Usage, wires), wire) && m.down
    requires Attempted(Tries(Queue(s.entries, Usage, wires), wire), Queue(s.entries, Usage, wires), wire)
    ensures AttemptedAll(Tries(Queue(s.entries, Usage, wires), wire), s.entries, wires, wire)
  {
    hide *;
    var usage := Queue(s.entries, Usage, wires);
    QueueIs(s.entries, Usage, wires);
    GetsWhenFailed(s, m, wires, wire);
    NoneReached(wire);
    assert Tries(usage, wire) + [] == Tries(usage, wire);
    JoinTries(Tries(usage, wire), [], s, usage, [], wires, wire);
  }

  /** After an unknown usage entry the error reports are not reached. */
  lemma {:induction false} GetsWhenFailed(s: State, m: State, wires: set<Channel>, wire: nat -> Delivery)
    requires Ascending(s.entries) && Drained(s, m, Queue(s.entries, Usage, wires), wire) && m.down
    ensures forall e :: Gets(s.entries, wires, wire, e) <==> Reached(Queue(s.entries, Usage, wires), wire, e)
  {
    var usage := Queue(s.entries, Usage, wires);
    var unknown :| unknown in usage && Reached(usage, wire, unknown) && wire(unknown.id) == Undelivered;
    hide *;
    forall e ensures Gets(s.entries, wires, wire, e) <==> Reached(usage, wire, e) {
      GetsIs(s.entries, wires, wire, e);
    }
  }

  /**
   * A drain on a closed circuit: the usage entries from the oldest on, up to and including the first that comes
   * back unknown, and the error reports likewise if none did, each channel only if it has a wire. What was
   * answered is gone and settled as answered; the one unknown is counted up, or dropped at its fifth failure,
   * and opens the circuit; every other entry stays as it was, in the same order.
   */
  lemma {:induction false} DrainsExactly(s: State, wires: set<Channel>, wire: nat -> Delivery)
    requires Ascending(s.entries) && !s.down
    ensures var t := Drain(s, wires, wire);
            && DrainedAll(s, t, wires, wire) && s.attempts <= t.attempts
            && AttemptedAll(t.attempts[|s.attempts|..], s.entries, wires, wire)
  {
    hide *;
    DrainLeaves(s, wires, wire);
    var tries := DrainTries(s, wires, wire);
    assert Drain(s, wires, wire).attempts[|s.attempts|..] == tries;
  }

  /** On an open circuit a drain does nothing at all. */
  lemma {:induction false} OpenDrainsNothing(s: State, wires: set<Channel>, wire: nat -> Delivery)
    ensures s.down ==> Drain(s, wires, wire) == s
  {
  }

  /**
   * When the wires answer everything, exactly the entries of channels without a wire are left, all others are
   * settled as answered, and the circuit stays closed.
   */
  lemma {:induction false} AnsweredDrainsEmpty(s: State, wires: set<Channel>, wire: nat -> Delivery)
    requires Ascending(s.entries) && !s.down && forall e <- s.entries | e.channel in wires :: wire(e.id) != Undelivered
    ensures var t := Drain(s, wires, wire);
            && !t.down && (forall e :: e in t.entries <==> e in s.entries && e.channel !in wires)
            && (forall e <- s.entries | e.channel in wires ::
                  Record(e, if wire(e.id) == Delivered then Taken else Refused) in t.settled)
  {
    DrainsExactly(s, wires, wire);
    forall e | e in s.entries && e.channel in wires ensures Gets(s.entries, wires, wire, e) && !Stays(wire, e) {}
    assert forall e | Gets(s.entries, wires, wire, e) :: e in s.entries && e.channel in wires;
    hide Drain, Gets, Ascending;
  }

  // Sends and discards

  /** The entries after sealing one more: the newest eight, in order, the others settled as overflowed. */
  lemma {:induction false} CappedIs(s: State)
    ensures var t := Capped(s); var dropped := |s.entries| - |t.entries|;
            && |t.entries| == (if |s.entries| <= MAX_ENTRIES then |s.entries| else MAX_ENTRIES)
            && dropped >= 0 && t.entries == s.entries[dropped..]
            && t.settled == s.settled + Records(s.entries[..dropped], Overflowed)
            && t == s.(entries := t.entries, settled := t.settled)
    decreases |s.entries|
  {
    if |s.entries| <= MAX_ENTRIES {
      assert s.settled + Records(s.entries[..0], Overflowed) == s.settled;
    } else {
      var next := s.(entries := s.entries[1..], settled := s.settled + [Record(s.entries[0], Overflowed)]);
      CappedIs(next);
      var dropped := |s.entries| - |Capped(s).entries|;
      hide Capped;
      var first, more := [Record(s.entries[0], Overflowed)], Records(next.entries[..dropped - 1], Overflowed);
      assert Records(s.entries[..dropped], Overflowed) == first + more;
      assert s.settled + first + more == s.settled + (first + more);
    }
  }

  /**
   * A send on a closed circuit tries the wire once: an answer settles the envelope and nothing else changes, an
   * unknown outcome opens the circuit. A body the wire did not take, or was not asked to, is sealed behind the
   * entries there are, of which the oldest goes over the cap.
   */
  lemma {:induction false} SendExactly(s: State, c: Channel, body: string, d: Delivery)
    ensures var t, e := Send(s, c, body, d), Entry(s.next, c, body, 0);
            && t.next == s.next + 1
            && t.attempts == (if s.down then s.attempts else s.attempts + [Attempt(s.next, d)])
            && (t.down <==> s.down || d == Undelivered)
            && (if t.down
                then
                  var dropped := if |s.entries| < MAX_ENTRIES then 0 else |s.entries| + 1 - MAX_ENTRIES;
                  && t.entries == (s.entries + [e])[dropped..]
                  && t.settled == s.settled + Records((s.entries + [e])[..dropped], Overflowed)
                else
                  t.entries == s.entries && t.settled == s.settled + [Record(e, FateOf(d))])
  {
    var tried := if s.down then s else s.(attempts := s.attempts + [Attempt(s.next, d)], down := true);
    CappedIs(tried.(entries := s.entries + [Entry(s.next, c, body, 0)], next := s.next + 1));
    hide Capped, Records;
  }

  /** A discard settles exactly the entries of its channel, as discarded, and keeps the others in order. */
  lemma {:induction false} DiscardExactly(s: State, c: Channel)
    requires Ascending(s.entries)
    ensures var t := Discard(s, c);
            && Ascending(t.entries) && (forall e :: e in t.entries <==> e in s.entries && e.channel != c)
            && (forall r :: r in t.settled <==>
                  r in s.settled || (r.entry in s.entries && r.entry.channel == c && r.fate == Discarded))
            && t == s.(entries := t.entries, settled := t.settled)
  {
    ChannelsSplit(s.entries, c);
    var gone := OfChannel(s.entries, c);
    var records := Records(gone, Discarded);
    hide OfChannel, NotOfChannel, Records, Ascending;
    forall r ensures r in records <==> r.entry in gone && r.fate == Discarded {
      if r.entry in gone && r.fate == Discarded {
        var i :| 0 <= i < |gone| && gone[i] == r.entry;
        assert records[i] == r;
      }
    }
  }
}
