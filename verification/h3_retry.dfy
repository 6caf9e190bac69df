/** What a hop does get: reuse where it may, one fresh dial after a stale reuse, and only its own trust. */
module H3Retry {
  import opened Wrappers
  import opened H3Pool
  import opened H3Hops
  import opened H3Safety
  import opened H3Verbs

  /** One of the methods that are safe to send twice, in any mixture of letter cases. */
  predicate Repeatable(verb: string) {
    exists k | 0 <= k < |IDEMPOTENT_METHODS| :: SameWord(verb, IDEMPOTENT_METHODS[k])
  }

  predicate IsPooled(s: System, c: Connection) {
    exists k | k in s.pool.entries :: s.pool.entries[k].connection == c
  }

  // The counts say what happened

  /** The counts of a hop go up with the very moves they count, by one. */
  lemma {:induction false} CountsAreExact(s: System, id: nat, move: Move)
    requires Enabled(s, Step(id, move))
    ensures var h, h' := s.hops[id], Next(s, Step(id, move)).hops[id];
            && h'.dials == h.dials + (if move.DialFails? || move.DialSucceeds? then 1 else 0)
            && h'.crossings == h.crossings + (if move.HeadCrosses? then 1 else 0)
            && h'.exchanges == h.exchanges + (if h'.phase.Exchanging? && !h.phase.Exchanging? then 1 else 0)
            && (h'.answered <==> h.answered || move.ResponseArrives?)
            && h'.key == h.key && h'.head == h.head && h'.buildable == h.buildable
  {
  }

  // Step by step

  /**
   * A hop whose request cannot be built ends; one that may reuse and finds its tuple pooled works on that very
   * connection; every other one goes and dials.
   */
  lemma {:induction false} BeginsExactly(s: System, id: nat)
    requires Enabled(s, Step(id, Begin))
    ensures var h, s' := s.hops[id], Next(s, Step(id, Begin));
            var h' := s'.hops[id];
            && s'.pool == s.pool && s'.open == s.open
            && (h'.phase.Done? <==> !h.buildable)
            && (h'.phase.Exchanging? <==> h.buildable && !h.head.captureNetwork && h.key in s.pool.entries)
            && (h'.phase.Exchanging? ==> h'.phase.connection == s.pool.entries[h.key].connection
                                           && h'.phase.slot == Reused(s.pool.entries[h.key].generation))
            && (h'.phase.Dialling? <==> h.buildable && (h.head.captureNetwork || h.key !in s.pool.entries))
  {
  }

  /** A reused connection that fails before a response is held stale, any other is the hop's own failure. */
  lemma {:induction false} FailsExactly(s: System, id: nat)
    requires Enabled(s, Step(id, ExchangeFails))
    ensures var h, h' := s.hops[id], Next(s, Step(id, ExchangeFails)).hops[id];
            && (h'.phase.Stale? <==> h.phase.slot.Reused?) && (h'.phase.Failed? <==> !h.phase.slot.Reused?)
            && h'.phase.connection == h.phase.connection && (h'.phase.Stale? ==> h'.phase.sent == h.phase.sent)
  {
  }

  lemma {:induction false} EvictionUnpools(s: System, key: PoolKey, generation: nat, c: Connection)
    requires PoolSound(s) && generation in s.stored && s.stored[generation] == c && c.dialledFor == key
    ensures !IsPooled(Evict(s, key, generation), c)
  {
  }

  /**
   * In every reachable system: a stale hop goes on to dial exactly when its head has not crossed or its method
   * is repeatable, and otherwise ends; either way the stale connection is pooled no more.
   */
  lemma {:induction false} RetriesExactly(s: System, id: nat)
    requires Reachable(s) && Enabled(s, Step(id, DropStale))
    ensures var h, s' := s.hops[id], Next(s, Step(id, DropStale));
            && (s'.hops[id].phase.Dialling? <==> h.crossings == 0 || Repeatable(h.head.verb))
            && (s'.hops[id].phase.Dialling? || s'.hops[id].phase.Done?)
            && !IsPooled(s', h.phase.connection)
  {
    ReachableIsSound(s);
    var h := s.hops[id];
    assert HopSound(s, id, h);
    IdempotentExactly(h.head.verb);
    hide Idempotent, OpenSound;
    EvictionUnpools(s, h.key, h.phase.generation, h.phase.connection);
  }

  /** What is dialled is a connection for the hop's own tuple, instrumented exactly if its head asks for that. */
  lemma {:induction false} DialsExactly(s: System, id: nat)
    requires Enabled(s, Step(id, DialSucceeds))
    ensures var h, s' := s.hops[id], Next(s, Step(id, DialSucceeds));
            var c := Connection(id, h.key, h.head.captureNetwork);
            s'.hops[id].phase == Fresh(c) && c in s'.open && s'.pool == s.pool
    ensures Next(s, Step(id, DialFails)).hops[id].phase.Done?
  {
  }

  /** A fresh connection is used by its hop, and pooled exactly when it is not instrumented and its tuple is free. */
  lemma {:induction false} OffersExactly(s: System, id: nat)
    requires Enabled(s, Step(id, Offer))
    ensures var h, s' := s.hops[id], Next(s, Step(id, Offer));
            var c, h' := h.phase.connection, s'.hops[id];
            && h'.phase.Exchanging? && h'.phase.connection == c && !h'.phase.sent && !h'.phase.slot.Reused?
            && (h'.phase.slot.Pooled? <==> !h.head.captureNetwork && h.key !in s.pool.entries)
            && (h'.phase.slot.Pooled? ==>
                  s'.pool.entries == s.pool.entries[h.key := Entry(c, h'.phase.slot.generation)])
            && (h'.phase.slot.Owned? ==> s'.pool == s.pool)
  {
  }

  /**
   * A hop that fails on the connection it dialled takes it out of the pool again, or closes it if it was never
   * pooled; a hop that ends well on a pooled connection leaves it there.
   */
  lemma {:induction false} EndsExactly(s: System, id: nat, ok: bool)
    requires Reachable(s) && id in s.hops
    ensures s.hops[id].phase.Failed? ==>
              var c, s' := s.hops[id].phase.connection, Next(s, Step(id, Settle));
              s'.hops[id].phase.Done? && !IsPooled(s', c) && (s.hops[id].phase.slot.Owned? ==> c !in s'.open)
    ensures s.hops[id].phase.Streaming? ==>
              var h, s' := s.hops[id], Next(s, Step(id, StreamEnds(ok)));
              && s'.pool == s.pool && (h.phase.slot.Owned? ==> h.phase.connection !in s'.open)
              && (s'.hops[id].phase == if !ok && h.phase.slot.Pooled? then Failed(h.phase.connection, h.phase.slot)
                                       else Done)
  {
    hide *;
    ReachableIsSound(s);
    if s.hops[id].phase.Failed? { FailureEnds(s, id); }
    if s.hops[id].phase.Streaming? { StreamEnding(s, id, ok); }
  }

  lemma {:induction false} FailureEnds(s: System, id: nat)
    requires Inv(s) && id in s.hops && s.hops[id].phase.Failed?
    ensures var c, s' := s.hops[id].phase.connection, Next(s, Step(id, Settle));
            s'.hops[id].phase.Done? && !IsPooled(s', c) && (s.hops[id].phase.slot.Owned? ==> c !in s'.open)
  {
    var h := s.hops[id];
    assert HopSound(s, id, h);
    hide Disciplined, OpenSound;
    if h.phase.slot.Pooled? {
      EvictionUnpools(s, h.key, h.phase.slot.generation, h.phase.connection);
    } else {
      OwnedIsNotPooled(s, id, h.phase.connection);
    }
  }

  lemma {:induction false} StreamEnding(s: System, id: nat, ok: bool)
    requires id in s.hops && s.hops[id].phase.Streaming?
    ensures var h, s' := s.hops[id], Next(s, Step(id, StreamEnds(ok)));
            && s'.pool == s.pool && (h.phase.slot.Owned? ==> h.phase.connection !in s'.open)
            && (s'.hops[id].phase == if !ok && h.phase.slot.Pooled? then Failed(h.phase.connection, h.phase.slot)
                                     else Done)
  {
  }

  lemma {:induction false} OwnedIsNotPooled(s: System, id: nat, c: Connection)
    requires PoolSound(s) && id in s.hops && OwnsSoundly(s, id, s.hops[id]) && c in Closes(s.hops[id])
    ensures !IsPooled(s, c)
  {
    hide Closes;
    forall k | k in s.pool.entries ensures s.pool.entries[k].connection != c {
      assert s.stored[s.pool.entries[k].generation] in s.stored.Values;
    }
  }

  /** A sweep takes exactly the dead entries out of the pool, closes exactly those, and touches no hop. */
  lemma {:induction false} SweepsExactly(s: System, dead: set<Connection>)
    requires Reachable(s)
    ensures var s' := Next(s, Sweep(dead));
            && s'.hops == s.hops
            && (forall c :: IsPooled(s', c) <==> IsPooled(s, c) && c !in dead)
            && (forall c :: c in s'.open <==> c in s.open && !(IsPooled(s, c) && c in dead))
  {
    ReachableIsSound(s);
    hide Disciplined, OpenSound, HopSound;
    var s' := Next(s, Sweep(dead));
    forall c ensures IsPooled(s, c) <==> InPool(s.pool, c) { PooledBothWays(s, c); }
    forall c ensures IsPooled(s', c) <==> IsPooled(s, c) && c !in dead {
      if IsPooled(s, c) && c !in dead { assert s'.pool.entries[c.dialledFor].connection == c; }
    }
  }

  lemma {:induction false} PooledBothWays(s: System, c: Connection)
    requires PoolSound(s)
    ensures IsPooled(s, c) <==> InPool(s.pool, c)
  {
  }

  // Over whole runs

  /**
   * What a hop that was not cancelled has tried when it ended without an answer: a dial of its own, unless its
   * head crossed on a reused connection and cannot be sent twice.
   */
  predicate Tried(h: Hop) {
    && (h.phase.Starting? ==> h.dials == 0 && h.exchanges == 0 && h.crossings == 0)
    && (h.phase.Fresh? || h.phase.Failed? ==> h.dials == 1)
    && (h.phase.Exchanging? && !h.phase.slot.Reused? ==> h.dials == 1)
    && (h.phase.Streaming? ==> h.answered && (!h.phase.slot.Reused? ==> h.dials == 1))
    && (h.phase.Done? && h.buildable && !h.answered ==>
          h.dials == 1 || (h.crossings == 1 && h.exchanges == 1 && !Idempotent(h.head.verb)))
  }

  lemma {:induction false} TriedStep(s: System, id: nat, move: Move)
    requires Inv(s) && Enabled(s, Step(id, move)) && !move.Cancel? && Tried(s.hops[id])
    ensures Tried(Next(s, Step(id, move)).hops[id])
  {
    hide PoolSound, OpenSound, Idempotent;
    assert HopSound(s, id, s.hops[id]);
  }

  lemma {:induction false} OneHopMoves(s: System, a: Action, id: nat)
    requires Enabled(s, a) && id in s.hops && !(a.Step? && a.id == id)
    ensures id in Next(s, a).hops && Next(s, a).hops[id] == s.hops[id]
  {
    if a.Step? { StepTouchesOneHop(s, a.id, s.hops[a.id], a.move); }
  }

  lemma {:induction false} SpawnedStarts(s: System, a: Action, id: nat)
    requires Enabled(s, a) && id !in s.hops && id in Next(s, a).hops
    ensures Tried(Next(s, a).hops[id])
  {
    if a.Step? { StepTouchesOneHop(s, a.id, s.hops[a.id], a.move); }
  }

  lemma {:induction false} TriedRun(s: System, actions: seq<Action>, id: nat)
    requires Inv(s) && Legal(s, actions) && Step(id, Cancel) !in actions
    requires id in s.hops ==> Tried(s.hops[id])
    ensures var end := RunFrom(s, actions); Inv(end) && (id in end.hops ==> Tried(end.hops[id]))
    decreases |actions|
  {
    hide Inv, Next, Enabled, Tried;
    if actions != [] {
      var a := actions[0];
      assert a in actions && forall later <- actions[1..] :: later in actions;
      InvStep(s, a);
      if id !in s.hops {
        if id in Next(s, a).hops { SpawnedStarts(s, a, id); }
      } else if a.Step? && a.id == id {
        TriedStep(s, id, a.move);
      } else {
        OneHopMoves(s, a, id);
      }
      TriedRun(Next(s, a), actions[1..], id);
    }
  }

  /**
   * Over every interleaving: a hop with a request that could be built, never cancelled, that ended without an
   * answer has dialled, or its head crossed once on a reused connection and its method is not repeatable.
   */
  lemma {:induction false} NoHopGivesUpEarly(actions: seq<Action>, id: nat)
    requires Legal(INITIAL, actions) && Step(id, Cancel) !in actions
    requires var end := RunFrom(INITIAL, actions);
             id in end.hops && end.hops[id].phase.Done? && end.hops[id].buildable && !end.hops[id].answered
    ensures var h := RunFrom(INITIAL, actions).hops[id];
            h.dials == 1 || (h.crossings == 1 && h.exchanges == 1 && !Repeatable(h.head.verb))
  {
    TriedRun(INITIAL, actions, id);
    IdempotentExactly(RunFrom(INITIAL, actions).hops[id].head.verb);
    hide RunFrom, Legal, Idempotent, Repeatable;
  }

  // Whose trust a connection carries

  /** Two heads ask for the same verification, certificate, address, ciphers and idle ceiling. */
  predicate SameTrust(a: RequestHead, b: RequestHead) {
    && a.insecure == b.insecure && a.clientCert == b.clientCert && a.connectAddress == b.connectAddress
    && a.cipherSuites == b.cipherSuites && a.idleTimeoutMs == b.idleTimeoutMs
  }

  /** The tuple tells apart everything that shapes a connection, and nothing else. */
  lemma {:induction false} KeysAreExact(
    host: string, port: nat, a: RequestHead, host': string, port': nat, b: RequestHead)
    ensures KeyOf(host, port, a) == KeyOf(host', port', b) <==> host == host' && port == port' && SameTrust(a, b)
  {
  }

  /** The tuple of a hop is that of its own head, and a connection's is that of the hop that dialled it. */
  predicate KeyFits(h: Hop) { h.key == KeyOf(h.key.host, h.key.port, h.head) }

  predicate DialledByIts(s: System, c: Connection) {
    c.dialledBy in s.hops && c.dialledFor == s.hops[c.dialledBy].key
    && c.captured == s.hops[c.dialledBy].head.captureNetwork
  }

  ghost predicate Honest(s: System) {
    && (forall id | id in s.hops :: KeyFits(s.hops[id]))
    && (forall g | g in s.stored :: DialledByIts(s, s.stored[g]))
    && (forall id | id in s.hops && Using(s.hops[id]).Some? :: DialledByIts(s, Using(s.hops[id]).value))
  }

  lemma {:induction false} HonestStep(s: System, a: Action)
    requires Inv(s) && Honest(s) && Enabled(s, a)
    ensures Honest(Next(s, a))
  {
    match a
    case Spawn(id, host, port, head, buildable) =>
      SameHopsHonest(s, Next(s, a), id);
    case Sweep(dead) =>
    case Step(id, move) =>
      HopStepHonest(s, id, move);
      StepTouchesOneHop(s, id, s.hops[id], move);
      SameHopsHonest(s, Next(s, a), id);
  }

  /** What a hop works on after a move it worked on before, or had dialled, or took from the pool. */
  predicate ComesFrom(s: System, h: Hop, c: Connection) {
    || Using(h) == Some(c) || h.phase == Fresh(c)
    || (h.key in s.pool.entries && s.pool.entries[h.key].connection == c)
  }

  lemma {:induction false} MoveUses(s: System, id: nat, move: Move)
    requires Enabled(s, Step(id, move))
    ensures var h' := Next(s, Step(id, move)).hops[id];
            Using(h').Some? ==> ComesFrom(s, s.hops[id], Using(h').value)
  {
  }

  lemma {:induction false} MoveStores(s: System, id: nat, move: Move)
    requires Enabled(s, Step(id, move))
    ensures var stored := Next(s, Step(id, move)).stored;
            forall g | g in stored ::
              (g in s.stored && stored[g] == s.stored[g]) || s.hops[id].phase == Fresh(stored[g])
  {
  }

  lemma {:induction false} SourcesAreHonest(s: System, id: nat, c: Connection)
    requires Inv(s) && Honest(s) && id in s.hops && ComesFrom(s, s.hops[id], c)
    ensures DialledByIts(s, c)
  {
    hide OpenSound, Disciplined;
    assert HopSound(s, id, s.hops[id]);
  }

  /** A hop keeps its tuple and its head, and works on and stores only what somebody dialled for himself. */
  lemma {:induction false} HopStepHonest(s: System, id: nat, move: Move)
    requires Inv(s) && Honest(s) && Enabled(s, Step(id, move))
    ensures var s' := Next(s, Step(id, move));
            && id in s'.hops && KeyFits(s'.hops[id]) && s'.hops[id].key == s.hops[id].key
            && s'.hops[id].head == s.hops[id].head
            && (Using(s'.hops[id]).Some? ==> DialledByIts(s, Using(s'.hops[id]).value))
            && (forall g | g in s'.stored :: DialledByIts(s, s'.stored[g]))
  {
    CountsAreExact(s, id, move);
    MoveUses(s, id, move);
    MoveStores(s, id, move);
    hide Inv, Next, Using, DialledByIts, ComesFrom;
    var h, s' := s.hops[id], Next(s, Step(id, move));
    if Using(s'.hops[id]).Some? { SourcesAreHonest(s, id, Using(s'.hops[id]).value); }
    forall g | g in s'.stored ensures DialledByIts(s, s'.stored[g]) {
      if h.phase == Fresh(s'.stored[g]) {
        FreshComesFrom(s, h, s'.stored[g]);
        SourcesAreHonest(s, id, s'.stored[g]);
      }
    }
  }

  lemma {:induction false} FreshComesFrom(s: System, h: Hop, c: Connection)
    ensures h.phase == Fresh(c) ==> ComesFrom(s, h, c)
  {
  }

  lemma {:induction false} SameHopsHonest(s: System, s': System, id: nat)
    requires Honest(s) && id in s'.hops && s'.hops == s.hops[id := s'.hops[id]]
    requires id in s.hops ==> s'.hops[id].key == s.hops[id].key && s'.hops[id].head == s.hops[id].head
    requires KeyFits(s'.hops[id])
    requires Using(s'.hops[id]).Some? ==> DialledByIts(s, Using(s'.hops[id]).value)
    requires forall g | g in s'.stored :: DialledByIts(s, s'.stored[g])
    ensures Honest(s')
  {
    hide KeyFits, Using;
    forall c | DialledByIts(s, c) ensures DialledByIts(s', c) {}
  }

  lemma {:induction false} HonestRun(s: System, actions: seq<Action>)
    requires Inv(s) && Honest(s) && Legal(s, actions)
    ensures Honest(RunFrom(s, actions))
    decreases |actions|
  {
    hide Inv, Next, Enabled, Honest;
    if actions != [] {
      InvStep(s, actions[0]);
      HonestStep(s, actions[0]);
      HonestRun(Next(s, actions[0]), actions[1..]);
    }
  }

  /**
   * In every reachable system: whatever connection a hop exchanges or streams on was dialled by a hop with the
   * same host and port whose head asks for the same trust; and if the two differ, neither head is instrumented.
   */
  lemma {:induction false} TrustIsShared(s: System, id: nat)
    requires Reachable(s) && id in s.hops && Using(s.hops[id]).Some?
    ensures var h, c := s.hops[id], Using(s.hops[id]).value;
            && c.dialledBy in s.hops
            && var other := s.hops[c.dialledBy];
               && h.key.host == other.key.host && h.key.port == other.key.port && SameTrust(h.head, other.head)
               && (c.dialledBy != id ==> !h.head.captureNetwork && !other.head.captureNetwork)
  {
    var actions :| Legal(INITIAL, actions) && RunFrom(INITIAL, actions) == s;
    HonestRun(INITIAL, actions);
    ReachableIsSound(s);
    PoolIsTrustExact(s);
    hide Legal, RunFrom, OpenSound, Disciplined, Reachable;
    assert HopSound(s, id, s.hops[id]);
    var h, c := s.hops[id], Using(s.hops[id]).value;
    assert KeyFits(h) && KeyFits(s.hops[c.dialledBy]) && c.dialledFor == h.key;
    KeysAreExact(h.key.host, h.key.port, h.head, h.key.host, h.key.port, s.hops[c.dialledBy].head);
  }
}
