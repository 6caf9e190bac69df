/** The telemetry outbox in memory: what becomes of every envelope. */
module Outbox {
  const MAX_ENTRIES := 8
  const MAX_ATTEMPTS := 5

  datatype Channel = Usage | Errors

  /** What one attempt on the wire came to; Undelivered means not known to have arrived. */
  datatype Delivery = Delivered | Rejected | Undelivered

  /** `id` stands for the identity of the entry object; a later entry has a larger one. */
  datatype Entry = Entry(id: nat, channel: Channel, body: string, attempts: nat)

  datatype Fate = Taken | Refused | Overflowed | Unrecoverable | Discarded

  datatype Record = Record(entry: Entry, fate: Fate)

  datatype Attempt = Attempt(id: nat, outcome: Delivery)

  /** The outbox and the circuit of the running invocation, with the history of every envelope sent so far. */
  datatype State = State(
    entries: seq<Entry>,
    down: bool,
    next: nat,
    settled: seq<Record>,
    attempts: seq<Attempt>,
    // Where in `attempts` the running invocation begins.
    invocation: nat,
    // The drains each envelope failed.
    failed: multiset<nat>)

  function OfChannel(entries: seq<Entry>, c: Channel): seq<Entry> {
    if entries == [] then []
    else if entries[0].channel == c then [entries[0]] + OfChannel(entries[1..], c)
    else OfChannel(entries[1..], c)
  }

  function NotOfChannel(entries: seq<Entry>, c: Channel): seq<Entry> {
    if entries == [] then []
    else if entries[0].channel != c then [entries[0]] + NotOfChannel(entries[1..], c)
    else NotOfChannel(entries[1..], c)
  }

  function Without(entries: seq<Entry>, id: nat): (r: seq<Entry>)
    ensures |r| <= |entries|
  {
    if entries == [] then []
    else if entries[0].id != id then [entries[0]] + Without(entries[1..], id)
    else Without(entries[1..], id)
  }

  /** One more failed drain on the entry object with this identity. */
  function Bumped(entries: seq<Entry>, id: nat): (r: seq<Entry>)
    ensures |r| == |entries|
  {
    if entries == [] then []
    else
      [if entries[0].id == id then entries[0].(attempts := entries[0].attempts + 1) else entries[0]]
      + Bumped(entries[1..], id)
  }

  function Records(entries: seq<Entry>, fate: Fate): (r: seq<Record>)
    ensures |r| == |entries| && forall i | 0 <= i < |r| :: r[i] == Record(entries[i], fate)
  {
    seq(|entries|, i requires 0 <= i < |entries| => Record(entries[i], fate))
  }

  // The operations

  /** Drop the oldest entries over the cap. */
  function Capped(s: State): State
    decreases |s.entries|
  {
    if |s.entries| <= MAX_ENTRIES then s
    else Capped(s.(entries := s.entries[1..], settled := s.settled + [Record(s.entries[0], Overflowed)]))
  }

  /** Seal a body the wire did not take. */
  function Put(s: State, c: Channel, body: string): State {
    Capped(s.(entries := s.entries + [Entry(s.next, c, body, 0)], next := s.next + 1))
  }

  /** One envelope through a channel's transport; the wire answers `d` if it is asked. */
  function Send(s: State, c: Channel, body: string, d: Delivery): State {
    if s.down then Put(s, c, body)
    else
      var tried := s.(attempts := s.attempts + [Attempt(s.next, d)]);
      if d == Undelivered then Put(tried.(down := true), c, body)
      else
        tried.(next := s.next + 1,
               settled := s.settled + [Record(Entry(s.next, c, body, 0), if d == Delivered then Taken else Refused)])
  }

  function Discard(s: State, c: Channel): State {
    s.(entries := NotOfChannel(s.entries, c), settled := s.settled + Records(OfChannel(s.entries, c), Discarded))
  }

  /** The wire answered an entry. */
  function Answered(s: State, e: Entry, d: Delivery): State
    requires d != Undelivered
  {
    s.(entries := Without(s.entries, e.id), attempts := s.attempts + [Attempt(e.id, d)],
       settled := s.settled + [Record(e, if d == Delivered then Taken else Refused)])
  }

  /** A failed drain: the circuit opens, and the fifth failure drops the entry. */
  function Failed(s: State, e: Entry): State {
    var tried := s.(attempts := s.attempts + [Attempt(e.id, Undelivered)], failed := s.failed + multiset{e.id},
                    down := true);
    if e.attempts + 1 >= MAX_ATTEMPTS
    then tried.(entries := Without(s.entries, e.id), settled := s.settled + [Record(e, Unrecoverable)])
    else tried.(entries := Bumped(s.entries, e.id))
  }

  /** Try the entries of `queue` in order, up to the first that is not known to have arrived. */
  function DrainQueue(s: State, queue: seq<Entry>, wire: nat -> Delivery): State
    decreases |queue|
  {
    if |queue| == 0 then s
    else if wire(queue[0].id) == Undelivered then Failed(s, queue[0])
    else DrainQueue(Answered(s, queue[0], wire(queue[0].id)), queue[1..], wire)
  }

  function DrainChannel(s: State, c: Channel, wires: set<Channel>, wire: nat -> Delivery): State {
    if c !in wires || s.down then s else DrainQueue(s, OfChannel(s.entries, c), wire)
  }

  function Drain(s: State, wires: set<Channel>, wire: nat -> Delivery): State {
    DrainChannel(DrainChannel(s, Usage, wires, wire), Errors, wires, wire)
  }

  /** The next invocation reads back what this one left, and knows nothing of the wire. */
  function NextInvocation(s: State): State {
    s.(down := false, invocation := |s.attempts|)
  }
}
