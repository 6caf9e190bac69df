/** The connection pool: one entry per trust tuple, tagged with a generation. */
module H3Pool {
  import opened Wrappers

  /** The part of a request head that shapes a connection, and what decides its replay. */
  datatype RequestHead = RequestHead(
    verb: string,
    insecure: bool,
    clientCert: Option<(string, string)>,
    connectAddress: Option<string>,
    cipherSuites: Option<seq<string>>,
    idleTimeoutMs: Option<nat>,
    captureNetwork: bool)

  /** The entire trust and transport tuple a connection was dialled with. */
  datatype PoolKey = PoolKey(
    host: string,
    port: nat,
    insecure: bool,
    clientCert: Option<(string, string)>,
    connectAddress: Option<string>,
    cipherSuites: Option<seq<string>>,
    idleTimeoutMs: Option<nat>)

  function KeyOf(host: string, port: nat, head: RequestHead): PoolKey {
    PoolKey(host, port, head.insecure, head.clientCert, head.connectAddress, head.cipherSuites, head.idleTimeoutMs)
  }

  /** A live connection: the hop that dialled it, the tuple it was dialled with, and whether it was instrumented. */
  datatype Connection = Connection(dialledBy: nat, dialledFor: PoolKey, captured: bool)

  datatype Entry = Entry(connection: Connection, generation: nat)

  datatype PoolState = PoolState(entries: map<PoolKey, Entry>, generations: nat)

  function Discarded(p: PoolState, key: PoolKey, generation: nat): PoolState {
    if key in p.entries && p.entries[key].generation == generation then p.(entries := p.entries - {key}) else p
  }

  function Swept(p: PoolState, dead: set<Connection>): PoolState {
    p.(entries := map k | k in p.entries && p.entries[k].connection !in dead :: p.entries[k])
  }

  /** The pool after an offer, and the generation it was stored under, if it was. */
  function Stored(p: PoolState, key: PoolKey, connection: Connection): (PoolState, Option<nat>) {
    if key in p.entries then (p, None)
    else
      (PoolState(p.entries[key := Entry(connection, p.generations)], p.generations + 1), Some(p.generations))
  }

  /** Every method is one critical section of the pool's mutex. */
  class Pool {
    var entries: map<PoolKey, Entry>
    var generations: nat

    constructor ()
      ensures State() == PoolState(map[], 0)
    {
      entries, generations := map[], 0;
    }

    function State(): PoolState
      reads this
    {
      PoolState(entries, generations)
    }

    method Checkout(key: PoolKey) returns (found: Option<Entry>)
      ensures found == if key in entries then Some(entries[key]) else None
    {
      if key in entries { return Some(entries[key]); }
      return None;
    }

    method Discard(key: PoolKey, generation: nat)
      modifies this
      ensures State() == Discarded(old(State()), key, generation)
      ensures entries - {key} == old(entries) - {key}
      ensures key in entries ==> entries[key].generation != generation
    {
      if key in entries && entries[key].generation == generation {
        entries := entries - {key};
      }
    }

    method Sweep(dead: set<Connection>)
      modifies this
      ensures State() == Swept(old(State()), dead)
    {
      var left := entries.Keys;
      while left != {}
        invariant left <= old(entries).Keys
        invariant entries == map k | k in old(entries) && (k in left || old(entries)[k].connection !in dead)
                               :: old(entries)[k]
        invariant generations == old(generations)
        decreases left
      {
        var k :| k in left;
        left := left - {k};
        if entries[k].connection in dead { entries := entries - {k}; }
      }
    }

    method Store(key: PoolKey, connection: Connection) returns (generation: Option<nat>)
      modifies this
      ensures (State(), generation) == Stored(old(State()), key, connection)
      ensures forall k | k in old(entries) :: k in entries && entries[k] == old(entries)[k]
      ensures generation.Some? ==> key in entries && entries[key] == Entry(connection, generation.value)
    {
      if key in entries { return None; }
      generation := Some(generations);
      entries, generations := entries[key := Entry(connection, generations)], generations + 1;
    }
  }

  // Generations over any run of operations

  datatype Op = DiscardOp(key: PoolKey, generation: nat) | SweepOp(dead: set<Connection>)
    | StoreOp(key: PoolKey, connection: Connection)

  function Do(p: PoolState, op: Op): PoolState {
    match op
    case DiscardOp(key, generation) => Discarded(p, key, generation)
    case SweepOp(dead) => Swept(p, dead)
    case StoreOp(key, connection) => Stored(p, key, connection).0
  }

  function Run(p: PoolState, ops: seq<Op>): PoolState
    decreases |ops|
  {
    if ops == [] then p else Run(Do(p, ops[0]), ops[1..])
  }

  /** Generations are handed out in order and never shared. */
  ghost predicate Numbered(p: PoolState) {
    && (forall k | k in p.entries :: p.entries[k].generation < p.generations)
    && (forall k, l | k in p.entries && l in p.entries && p.entries[k].generation == p.entries[l].generation :: k == l)
  }

  /** `q` has only entries of `p` and younger ones. */
  ghost predicate Follows(p: PoolState, q: PoolState) {
    && Numbered(q) && p.generations <= q.generations
    && forall k | k in q.entries && q.entries[k].generation < p.generations ::
         k in p.entries && q.entries[k] == p.entries[k]
  }

  lemma {:induction false} DoFollows(p: PoolState, q: PoolState, op: Op)
    requires Follows(p, q)
    ensures Follows(p, Do(q, op))
  {
  }

  lemma {:induction false} RunFollows(p: PoolState, q: PoolState, ops: seq<Op>)
    requires Follows(p, q)
    ensures Follows(p, Run(q, ops))
    decreases |ops|
  {
    hide Follows, Do;
    if ops != [] {
      DoFollows(p, q, ops[0]);
      RunFollows(p, Do(q, ops[0]), ops[1..]);
    }
  }

  /**
   * However long a hop keeps what it checked out, and whatever happens to the pool meanwhile: discarding it
   * removes that very connection if it is still pooled, and nothing else, a replacement under its key included.
   */
  lemma {:induction false} DiscardIsExact(p: PoolState, ops: seq<Op>, key: PoolKey)
    requires Numbered(p) && key in p.entries
    ensures var entry, q := p.entries[key], Run(p, ops);
            Discarded(q, key, entry.generation).entries
              == map k | k in q.entries && q.entries[k] != entry :: q.entries[k]
  {
    RunFollows(p, p, ops);
    hide Run;
    DiscardFinds(p, Run(p, ops), key);
  }

  lemma {:induction false} DiscardFinds(p: PoolState, q: PoolState, key: PoolKey)
    requires Follows(p, q) && Numbered(p) && key in p.entries
    ensures Discarded(q, key, p.entries[key].generation).entries
      == map k | k in q.entries && q.entries[k] != p.entries[key] :: q.entries[k]
  {
    var entry := p.entries[key];
    var left := Discarded(q, key, entry.generation).entries;
    forall k | k in q.entries ensures k in left <==> q.entries[k] != entry {
      if q.entries[k].generation == entry.generation { assert q.entries[k] == p.entries[k] && k == key; }
    }
  }

  /** A stored connection is what the next checkout finds, under a generation nothing had; no entry is displaced. */
  lemma {:induction false} StoreIsFresh(ops: seq<Op>, key: PoolKey, connection: Connection)
    ensures var p := Run(PoolState(map[], 0), ops);
            var (q, generation) := Stored(p, key, connection);
            && (generation.None? <==> key in p.entries)
            && (generation.Some? ==> q.entries == p.entries[key := Entry(connection, generation.value)])
            && (generation.Some? ==> forall k | k in p.entries :: p.entries[k].generation < generation.value)
            && (generation.None? ==> q == p)
  {
    RunFollows(PoolState(map[], 0), PoolState(map[], 0), ops);
  }
}
