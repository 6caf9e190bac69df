/** What holds in every system that hops can reach, whatever the wire answers and however they interleave. */
module H3Safety {
  import opened Wrappers
  import opened H3Pool
  import opened H3Hops

  ghost predicate Legal(s: System, actions: seq<Action>)
    decreases |actions|
  {
    actions == [] || (Enabled(s, actions[0]) && Legal(Next(s, actions[0]), actions[1..]))
  }

  ghost function RunFrom(s: System, actions: seq<Action>): System
    requires Legal(s, actions)
    decreases |actions|
  {
    if actions == [] then s else RunFrom(Next(s, actions[0]), actions[1..])
  }

  lemma {:induction false} InvRun(s: System, actions: seq<Action>)
    requires Inv(s) && Legal(s, actions)
    ensures Inv(RunFrom(s, actions))
    decreases |actions|
  {
    hide Inv, Next;
    if actions != [] {
      InvStep(s, actions[0]);
      InvRun(Next(s, actions[0]), actions[1..]);
    }
  }

  ghost predicate Reachable(s: System) {
    exists actions :: Legal(INITIAL, actions) && RunFrom(INITIAL, actions) == s
  }

  lemma {:induction false} ReachableIsSound(s: System)
    requires Reachable(s)
    ensures Inv(s)
  {
    var actions :| Legal(INITIAL, actions) && RunFrom(INITIAL, actions) == s;
    InvRun(INITIAL, actions);
  }

  /** The connection a hop is exchanging or streaming on. */
  function Using(h: Hop): Option<Connection> {
    match h.phase
    case Exchanging(c, _, _) => Some(c)
    case Streaming(c, _) => Some(c)
    case _ => None
  }

  /** Under every interleaving: entries sit under their own tuple, generations are distinct and below the
      counter, instrumented dials never enter, and no hop is ever served over another tuple's connection. */
  lemma {:induction false} PoolIsTrustExact(s: System)
    requires Reachable(s)
    ensures forall k | k in s.pool.entries ::
              s.pool.entries[k].connection.dialledFor == k && !s.pool.entries[k].connection.captured
              && s.pool.entries[k].generation < s.pool.generations && s.pool.entries[k].connection in s.open
    ensures forall k, other | k in s.pool.entries && other in s.pool.entries &&
              s.pool.entries[k].generation == s.pool.entries[other].generation :: k == other
    ensures forall id | id in s.hops && Using(s.hops[id]).Some? ::
              Using(s.hops[id]).value.dialledFor == s.hops[id].key
  {
    hide Disciplined;
    ReachableIsSound(s);
    forall k | k in s.pool.entries ensures s.pool.entries[k].connection in s.open {
      assert InPool(s.pool, s.pool.entries[k].connection);
    }
    forall id | id in s.hops && Using(s.hops[id]).Some? ensures Using(s.hops[id]).value.dialledFor == s.hops[id].key {
      var h := s.hops[id];
      assert HopSound(s, id, h);
      if h.phase.slot.Owned? { assert Using(h).value in Closes(h); }
    }
  }

  /** What of the pool's entries is gone or changed. */
  predicate Displaced(entries: map<PoolKey, Entry>, left: map<PoolKey, Entry>, k: PoolKey) {
    k in entries && (k !in left || left[k] != entries[k])
  }

  /** A hop displaces no entry, except that an eviction removes the very connection that hop checked out or stored. */
  lemma {:induction false} EvictionIsTargeted(s: System, id: nat, move: Move)
    requires Reachable(s) && Enabled(s, Step(id, move))
    ensures var entries, left := s.pool.entries, Next(s, Step(id, move)).pool.entries;
            var h := s.hops[id];
            forall k | Displaced(entries, left, k) ::
              (move.DropStale? || move.Settle?)
              && k == h.key && k !in left && entries[k].connection == h.phase.connection
  {
    hide Disciplined, OpenSound, Closes;
    ReachableIsSound(s);
    var h := s.hops[id];
    assert HopSound(s, id, h);
    match move {
      case DropStale => EvictsOwn(s, h, h.phase.connection, h.phase.generation);
      case Settle =>
        if h.phase.slot.Pooled? { EvictsOwn(s, h, h.phase.connection, h.phase.slot.generation); }
      case _ => NothingDisplaced(s, id, h, move);
    }
  }

  lemma {:induction false} NothingDisplaced(s: System, id: nat, h: Hop, move: Move)
    requires CanMove(h.phase, move) && !move.DropStale? && !move.Settle?
    ensures forall k :: !Displaced(s.pool.entries, HopStep(s, id, h, move).pool.entries, k)
  {
  }

  lemma {:induction false} EvictsOwn(s: System, h: Hop, c: Connection, generation: nat)
    requires PoolSound(s) && generation in s.stored && s.stored[generation] == c
    ensures var entries, left := s.pool.entries, Evict(s, h.key, generation).pool.entries;
            forall k | Displaced(entries, left, k) :: k == h.key && k !in left && entries[k].connection == c
  {
  }

  /** With no hop live, the open connections are exactly the pool's. */
  lemma {:induction false} QuietPoolOwnsAll(s: System)
    requires Reachable(s) && forall id | id in s.hops :: s.hops[id].phase.Done?
    ensures s.open == set k | k in s.pool.entries :: s.pool.entries[k].connection
  {
    hide Disciplined;
    ReachableIsSound(s);
    forall c ensures c in s.open <==> InPool(s.pool, c) {}
    forall k | k in s.pool.entries ensures InPool(s.pool, s.pool.entries[k].connection) {}
  }

  /** Over every outcome: at most one fresh dial and two exchanges, and one crossing unless the method is idempotent. */
  lemma {:induction false} ReplayIsDisciplined(s: System, id: nat)
    requires Reachable(s) && id in s.hops
    ensures var h := s.hops[id];
            h.dials <= 1 && h.exchanges <= 2 && h.crossings <= h.exchanges
            && (!Idempotent(h.head.verb) ==> h.crossings <= 1)
  {
    hide PoolSound, OpenSound;
    ReachableIsSound(s);
    assert HopSound(s, id, s.hops[id]);
  }

  /** No exchange starts, and no head crosses again, once a response head has arrived. */
  lemma {:induction false} AnsweredHopsNeverRepeat(s: System, id: nat, a: Action)
    requires Reachable(s) && Enabled(s, a) && id in s.hops && s.hops[id].answered
    ensures var next := Next(s, a).hops[id];
            next.answered && next.exchanges == s.hops[id].exchanges
            && next.crossings == s.hops[id].crossings && next.dials == s.hops[id].dials
  {
    hide PoolSound, OpenSound, Disciplined, HopStep;
    ReachableIsSound(s);
    assert HopSound(s, id, s.hops[id]);
    if a.Step? {
      StepTouchesOneHop(s, a.id, s.hops[a.id], a.move);
      if a.id == id { AnsweredMoves(s, id, s.hops[id], a.move); }
    }
  }

  lemma {:induction false} StepTouchesOneHop(s: System, id: nat, h: Hop, move: Move)
    requires CanMove(h.phase, move)
    ensures var after := HopStep(s, id, h, move); id in after.hops && after.hops == s.hops[id := after.hops[id]]
  {
    hide Idempotent;
  }

  lemma {:induction false} AnsweredMoves(s: System, id: nat, h: Hop, move: Move)
    requires Disciplined(h) && h.answered && CanMove(h.phase, move)
    ensures var next := HopStep(s, id, h, move).hops[id];
            next.answered && next.exchanges == h.exchanges && next.crossings == h.crossings && next.dials == h.dials
  {
    hide Idempotent;
  }
}
