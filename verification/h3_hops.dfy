/** Hops sharing the pool, interleaved at every await; QUIC, TLS and DNS are arbitrary outcomes. */
module H3Hops {
  import opened Wrappers
  import opened H3Pool

  function UpperAscii(c: char): char {
    if 'a' <= c <= 'z' then (c as int - 32) as char else c
  }

  function Upper(s: string): string {
    if s == [] then [] else [UpperAscii(s[0])] + Upper(s[1..])
  }

  /** Section 9.2.2 of RFC 9110. */
  predicate Idempotent(verb: string) {
    Upper(verb) in {"GET", "HEAD", "PUT", "DELETE", "OPTIONS", "TRACE"}
  }

  /** Who holds the connection a hop works on. */
  datatype Slot = Reused(generation: nat) | Pooled(generation: nat) | Owned

  datatype Phase =
    | Starting
    | Exchanging(connection: Connection, slot: Slot, sent: bool)
    | Stale(connection: Connection, generation: nat, sent: bool)
    | Dialling
    | Fresh(connection: Connection)
    | Streaming(connection: Connection, slot: Slot)
    | Failed(connection: Connection, slot: Slot)
    | Done

  /** One hop's task, with a count of what it has done on the wire. */
  datatype Hop = Hop(
    key: PoolKey,
    head: RequestHead,
    buildable: bool,
    phase: Phase,
    dials: nat,
    exchanges: nat,
    crossings: nat,
    answered: bool)

  /** `stored` remembers which connection each generation named. */
  datatype System = System(
    pool: PoolState,
    hops: map<nat, Hop>,
    open: set<Connection>,
    stored: map<nat, Connection>)

  const INITIAL := System(PoolState(map[], 0), map[], {}, map[])

  /** What one hop's task does between two awaits. */
  datatype Move =
    | Begin
    | HeadCrosses
    | ExchangeFails
    | ResponseArrives
    | DropStale
    | DialFails
    | DialSucceeds
    | Offer
    | StreamEnds(ok: bool)
    | Settle
    | Cancel

  datatype Action =
    | Spawn(id: nat, host: string, port: nat, head: RequestHead, buildable: bool)
    | Step(id: nat, move: Move)
    | Sweep(dead: set<Connection>)

  predicate CanMove(phase: Phase, move: Move) {
    match move
    case Begin => phase.Starting?
    case HeadCrosses => phase.Exchanging? && !phase.sent
    case ExchangeFails => phase.Exchanging?
    case ResponseArrives => phase.Exchanging? && phase.sent
    case DropStale => phase.Stale?
    case DialFails => phase.Dialling?
    case DialSucceeds => phase.Dialling?
    case Offer => phase.Fresh?
    case StreamEnds(_) => phase.Streaming?
    case Settle => phase.Failed?
    case Cancel => !phase.Done?
  }

  predicate Enabled(s: System, a: Action) {
    match a
    case Spawn(id, _, _, _, _) => id !in s.hops
    case Step(id, move) => id in s.hops && CanMove(s.hops[id].phase, move)
    case Sweep(_) => true
  }

  /** The hop moves on; the rest of the system as given. */
  function Moved(s: System, id: nat, h: Hop): System { s.(hops := s.hops[id := h]) }

  /** Remove the pool entry if the generation still names it; dropping the entry closes its connection. */
  function Evict(s: System, key: PoolKey, generation: nat): System {
    if key in s.pool.entries && s.pool.entries[key].generation == generation then
      s.(pool := Discarded(s.pool, key, generation), open := s.open - {s.pool.entries[key].connection})
    else s
  }

  /** The connection an ended task drops, if it still owned one. */
  function Closes(h: Hop): set<Connection> {
    match h.phase
    case Fresh(c) => {c}
    case Exchanging(c, slot, _) => if slot.Owned? then {c} else {}
    case Streaming(c, slot) => if slot.Owned? then {c} else {}
    case Failed(c, slot) => if slot.Owned? then {c} else {}
    case _ => {}
  }

  function Ended(s: System, id: nat, h: Hop): System {
    Moved(s.(open := s.open - Closes(h)), id, h.(phase := Done))
  }

  /** Reuse a pooled connection for the tuple, or go and dial; instrumented hops bypass the pool. */
  function BeginHop(s: System, id: nat, h: Hop): System {
    if !h.buildable then Moved(s, id, h.(phase := Done))
    else if !h.head.captureNetwork && h.key in s.pool.entries then
      var entry := s.pool.entries[h.key];
      Moved(s, id, h.(phase := Exchanging(entry.connection, Reused(entry.generation), false),
                      exchanges := h.exchanges + 1))
    else Moved(s, id, h.(phase := Dialling))
  }

  function FailExchange(s: System, id: nat, h: Hop): System
    requires h.phase.Exchanging?
  {
    var phase :=
      if h.phase.slot.Reused? then Stale(h.phase.connection, h.phase.slot.generation, h.phase.sent)
      else Failed(h.phase.connection, h.phase.slot);
    Moved(s, id, h.(phase := phase))
  }

  /** Evict; then a request past the replay boundary that is not idempotent fails honestly, and others dial once. */
  function DropStaleConnection(s: System, id: nat, h: Hop): System
    requires h.phase.Stale?
  {
    var phase := if h.phase.sent && !Idempotent(h.head.verb) then Done else Dialling;
    Moved(Evict(s, h.key, h.phase.generation), id, h.(phase := phase))
  }

  function Dialled(s: System, id: nat, h: Hop): System {
    var c := Connection(id, h.key, h.head.captureNetwork);
    Moved(s.(open := s.open + {c}), id, h.(phase := Fresh(c), dials := h.dials + 1))
  }

  /** Offer the fresh connection to the pool and start the exchange on it either way. */
  function OfferConnection(s: System, id: nat, h: Hop): System
    requires h.phase.Fresh?
  {
    var c, h' := h.phase.connection, h.(exchanges := h.exchanges + 1);
    var (pool, generation) := if h.head.captureNetwork then (s.pool, None) else H3Pool.Stored(s.pool, h.key, c);
    match generation
    case None => Moved(s, id, h'.(phase := Exchanging(c, Owned, false)))
    case Some(g) =>
      Moved(s.(pool := pool, stored := s.stored[g := c]), id, h'.(phase := Exchanging(c, Pooled(g), false)))
  }

  function EndStream(s: System, id: nat, h: Hop, ok: bool): System
    requires h.phase.Streaming?
  {
    if !ok && h.phase.slot.Pooled? then Moved(s, id, h.(phase := Failed(h.phase.connection, h.phase.slot)))
    else Ended(s, id, h)
  }

  function SettleFailure(s: System, id: nat, h: Hop): System
    requires h.phase.Failed?
  {
    if h.phase.slot.Pooled? then Moved(Evict(s, h.key, h.phase.slot.generation), id, h.(phase := Done))
    else Ended(s, id, h)
  }

  function HopStep(s: System, id: nat, h: Hop, move: Move): System
    requires CanMove(h.phase, move)
  {
    match move
    case Begin => BeginHop(s, id, h)
    case HeadCrosses =>
      Moved(s, id, h.(phase := Exchanging(h.phase.connection, h.phase.slot, true), crossings := h.crossings + 1))
    case ExchangeFails => FailExchange(s, id, h)
    case ResponseArrives => Moved(s, id, h.(phase := Streaming(h.phase.connection, h.phase.slot), answered := true))
    case DropStale => DropStaleConnection(s, id, h)
    case DialFails => Moved(s, id, h.(phase := Done, dials := h.dials + 1))
    case DialSucceeds => Dialled(s, id, h)
    case Offer => OfferConnection(s, id, h)
    case StreamEnds(ok) => EndStream(s, id, h, ok)
    case Settle => SettleFailure(s, id, h)
    case Cancel => Ended(s, id, h)
  }

  function Next(s: System, a: Action): System
    requires Enabled(s, a)
  {
    match a
    case Spawn(id, host, port, head, buildable) =>
      Moved(s, id, Hop(KeyOf(host, port, head), head, buildable, Starting, 0, 0, 0, false))
    case Step(id, move) => HopStep(s, id, s.hops[id], move)
    case Sweep(dead) =>
      s.(pool := Swept(s.pool, dead), open := set c | c in s.open && !(InPool(s.pool, c) && c in dead))
  }

  // What every step keeps

  predicate InPool(p: PoolState, c: Connection) {
    c.dialledFor in p.entries && p.entries[c.dialledFor].connection == c
  }

  predicate OwnedByHop(s: System, c: Connection) {
    c.dialledBy in s.hops && c in Closes(s.hops[c.dialledBy])
  }

  /** Each entry sits under the tuple it was dialled with, by an uninstrumented dial, under a past generation. */
  ghost predicate PoolSound(s: System) {
    && (forall g :: g in s.stored <==> 0 <= g < s.pool.generations)
    && (forall g, g' | g in s.stored && g' in s.stored && s.stored[g] == s.stored[g'] :: g == g')
    && (forall k | k in s.pool.entries ::
          var e := s.pool.entries[k];
          e.connection.dialledFor == k && e.generation in s.stored && s.stored[e.generation] == e.connection)
    && (forall g | g in s.stored :: !s.stored[g].captured && s.stored[g].dialledBy in s.hops)
  }

  /** The generation a hop names is that of the connection it works on, dialled for its own tuple. */
  ghost predicate SlotSound(s: System, h: Hop, c: Connection, slot: Slot) {
    !slot.Owned? ==>
      slot.generation in s.stored && s.stored[slot.generation] == c && c.dialledFor == h.key && !h.head.captureNetwork
  }

  /** How often a hop may have dialled, exchanged and sent its head, phase by phase. */
  predicate Disciplined(h: Hop) {
    && h.crossings <= h.exchanges <= h.dials + 1
    && h.dials <= 1
    && (!Idempotent(h.head.verb) ==> h.crossings <= 1)
    && match h.phase
       case Starting => h.dials == h.exchanges == h.crossings == 0 && !h.answered
       case Exchanging(_, slot, sent) =>
         && h.dials == (if slot.Reused? then 0 else 1)
         && (slot.Reused? ==> h.exchanges == 1 && h.crossings == if sent then 1 else 0)
         && h.crossings + (if sent then 0 else 1) <= h.exchanges
         && !h.answered
         && (!Idempotent(h.head.verb) ==> h.crossings == if sent then 1 else 0)
       case Stale(_, _, sent) =>
         h.dials == 0 && h.exchanges == 1 && !h.answered && h.crossings == if sent then 1 else 0
       case Dialling =>
         h.dials == 0 && !h.answered && (!Idempotent(h.head.verb) ==> h.crossings == 0)
       case Fresh(_) =>
         h.dials == 1 && h.exchanges <= 1 && !h.answered && (!Idempotent(h.head.verb) ==> h.crossings == 0)
       case _ => true
  }

  /** What the phase of a hop says of the connections it works on. */
  ghost predicate WorksSoundly(s: System, h: Hop) {
    && (h.phase.Exchanging? || h.phase.Streaming? || h.phase.Failed? ==>
          SlotSound(s, h, h.phase.connection, h.phase.slot))
    && (h.phase.Failed? ==> !h.phase.slot.Reused?)
    && (h.phase.Stale? ==> SlotSound(s, h, h.phase.connection, Reused(h.phase.generation)))
  }

  ghost predicate OwnsSoundly(s: System, id: nat, h: Hop) {
    && (forall c | c in Closes(h) ::
          c.dialledBy == id && c.dialledFor == h.key && c.captured == h.head.captureNetwork && c !in s.stored.Values)
    && (h.dials == 0 ==> Closes(h) == {} && forall g | g in s.stored :: s.stored[g].dialledBy != id)
  }

  ghost predicate HopSound(s: System, id: nat, h: Hop) {
    WorksSoundly(s, h) && OwnsSoundly(s, id, h) && Disciplined(h)
  }

  /** Nothing leaks: the open connections are the pool's and those a live hop still owns. */
  ghost predicate OpenSound(s: System) {
    forall c :: c in s.open <==> InPool(s.pool, c) || OwnedByHop(s, c)
  }

  ghost predicate Inv(s: System) {
    PoolSound(s) && OpenSound(s) && forall id | id in s.hops :: HopSound(s, id, s.hops[id])
  }

  /** A step that changes only one hop, which keeps what it owns. */
  lemma {:induction false} InvMoved(s: System, id: nat, h: Hop)
    requires Inv(s) && id in s.hops
    requires h.key == s.hops[id].key && h.head == s.hops[id].head && Closes(h) == Closes(s.hops[id])
    requires h.dials >= s.hops[id].dials && Disciplined(h) && WorksSoundly(s, h)
    ensures Inv(Moved(s, id, h))
  {
    hide Disciplined, Closes;
    var s' := Moved(s, id, h);
    forall c ensures OwnedByHop(s', c) <==> OwnedByHop(s, c) {}
    forall i | i in s'.hops ensures HopSound(s', i, s'.hops[i]) {
      assert i in s.hops ==> HopSound(s, i, s.hops[i]);
    }
    assert PoolSound(s');
  }

  lemma {:induction false} PooledIsNotOwned(s: System, c: Connection)
    requires Inv(s) && InPool(s.pool, c)
    ensures !OwnedByHop(s, c)
  {
    hide Disciplined, Closes;
    assert s.stored[s.pool.entries[c.dialledFor].generation] == c;
  }

  lemma {:induction false} InvEvict(s: System, key: PoolKey, generation: nat)
    requires Inv(s)
    ensures Inv(Evict(s, key, generation))
  {
    hide Disciplined, Closes;
    var s' := Evict(s, key, generation);
    if s' != s {
      var gone := s.pool.entries[key].connection;
      PooledIsNotOwned(s, gone);
      EvictOpenSound(s, s', gone);
      assert PoolSound(s');
      hide PoolSound, OpenSound;
      forall i | i in s'.hops ensures HopSound(s', i, s'.hops[i]) { assert HopSound(s, i, s.hops[i]); }
    }
  }

  lemma {:induction false} EvictOpenSound(s: System, s': System, gone: Connection)
    requires OpenSound(s) && InPool(s.pool, gone) && !OwnedByHop(s, gone) && s'.hops == s.hops
    requires s'.pool.entries == s.pool.entries - {gone.dialledFor} && s'.open == s.open - {gone}
    requires forall k | k in s.pool.entries :: s.pool.entries[k].connection.dialledFor == k
    ensures OpenSound(s')
  {
    hide Closes;
    forall c ensures c in s'.open <==> InPool(s'.pool, c) || OwnedByHop(s', c) {
      assert OwnedByHop(s', c) <==> OwnedByHop(s, c);
      assert InPool(s'.pool, c) <==> InPool(s.pool, c) && c != gone;
    }
  }

  /** A task that ends closes what it owned. */
  lemma {:induction false} InvEnded(s: System, id: nat)
    requires Inv(s) && id in s.hops
    ensures Inv(Ended(s, id, s.hops[id]))
  {
    var h, h' := s.hops[id], s.hops[id].(phase := Done);
    var s' := Ended(s, id, h);
    assert HopSound(s, id, h) && Disciplined(h') && Closes(h') == {};
    hide Disciplined, Closes;
    SamePoolSound(s, s');
    EndedOpenSound(s, s', id);
    OthersKeep(s, s', id);
  }

  lemma {:induction false} EndedOpenSound(s: System, s': System, id: nat)
    requires Inv(s) && id in s.hops && id in s'.hops && s'.pool == s.pool && s'.open == s.open - Closes(s.hops[id])
    requires s'.hops == s.hops[id := s'.hops[id]] && Closes(s'.hops[id]) == {}
    ensures OpenSound(s')
  {
    hide Disciplined, Closes;
    var h := s.hops[id];
    assert HopSound(s, id, h);
    forall c ensures c in s'.open <==> InPool(s'.pool, c) || OwnedByHop(s', c) {
      if InPool(s.pool, c) { PooledIsNotOwned(s, c); }
      assert OwnedByHop(s', c) <==> OwnedByHop(s, c) && c !in Closes(h);
      assert c in Closes(h) ==> OwnedByHop(s, c);
    }
  }

  /** Other hops do not notice a step that keeps what was stored and stores nothing of theirs. */
  lemma {:induction false} OthersKeep(s: System, s': System, id: nat)
    requires Inv(s) && id in s.hops && id in s'.hops && s'.hops == s.hops[id := s'.hops[id]]
    requires forall g | g in s.stored :: g in s'.stored && s'.stored[g] == s.stored[g]
    requires forall g | g in s'.stored && g !in s.stored :: s'.stored[g].dialledBy == id
    requires PoolSound(s') && OpenSound(s') && HopSound(s', id, s'.hops[id])
    ensures Inv(s')
  {
    hide Disciplined, Closes, PoolSound, OpenSound;
    forall i | i in s'.hops ensures HopSound(s', i, s'.hops[i]) {
      if i != id {
        assert HopSound(s, i, s.hops[i]);
        forall c | c in Closes(s.hops[i]) ensures c !in s'.stored.Values {
          assert c.dialledBy == i && c !in s.stored.Values;
        }
      }
    }
    assert OpenSound(s');
  }

  lemma {:induction false} InvDialled(s: System, id: nat)
    requires Inv(s) && id in s.hops && s.hops[id].phase.Dialling?
    ensures Inv(Dialled(s, id, s.hops[id]))
  {
    hide Disciplined, PoolSound, OpenSound;
    var h := s.hops[id];
    assert HopSound(s, id, h);
    var s' := Dialled(s, id, h);
    var c' := Connection(id, h.key, h.head.captureNetwork);
    DialIsDisciplined(h, c');
    assert Closes(h) == {} && Closes(s'.hops[id]) == {c'};
    hide Closes;
    assert forall g | g in s.stored :: s.stored[g].dialledBy != id;
    SamePoolSound(s, s');
    DialledOpenSound(s, s', id, c');
    OthersKeep(s, s', id);
  }

  lemma {:induction false} DialIsDisciplined(h: Hop, c: Connection)
    requires Disciplined(h) && h.phase.Dialling?
    ensures h.dials == 0 && Disciplined(h.(phase := Fresh(c), dials := h.dials + 1))
  {
    hide Idempotent;
  }

  lemma {:induction false} SamePoolSound(s: System, s': System)
    requires PoolSound(s) && s'.pool == s.pool && s'.stored == s.stored && s.hops.Keys <= s'.hops.Keys
    ensures PoolSound(s')
  {
  }

  lemma {:induction false} DialledOpenSound(s: System, s': System, id: nat, c': Connection)
    requires OpenSound(s) && id in s.hops && id in s'.hops && s'.open == s.open + {c'} && c'.dialledBy == id
    requires s'.hops == s.hops[id := s'.hops[id]] && Closes(s.hops[id]) == {} && Closes(s'.hops[id]) == {c'}
    requires s'.pool == s.pool
    ensures OpenSound(s')
  {
    hide Closes;
    forall c ensures c in s'.open <==> InPool(s'.pool, c) || OwnedByHop(s', c) {
      assert OwnedByHop(s', c) <==> OwnedByHop(s, c) || c == c';
    }
  }

  lemma {:induction false} InvOffer(s: System, id: nat)
    requires Inv(s) && id in s.hops && s.hops[id].phase.Fresh?
    ensures Inv(OfferConnection(s, id, s.hops[id]))
  {
    hide Disciplined, PoolSound, OpenSound;
    var h := s.hops[id];
    assert HopSound(s, id, h);
    var next := h.(exchanges := h.exchanges + 1);
    OfferIsDisciplined(h, Owned);
    if h.head.captureNetwork || h.key in s.pool.entries {
      InvMoved(s, id, next.(phase := Exchanging(h.phase.connection, Owned, false)));
    } else {
      var slot := Pooled(s.pool.generations);
      OfferIsDisciplined(h, slot);
      InvStored(s, id, h, next.(phase := Exchanging(h.phase.connection, slot, false)));
    }
  }

  lemma {:induction false} OfferIsDisciplined(h: Hop, slot: Slot)
    requires Disciplined(h) && h.phase.Fresh? && !slot.Reused?
    ensures Disciplined(h.(phase := Exchanging(h.phase.connection, slot, false), exchanges := h.exchanges + 1))
  {
    hide Idempotent;
  }

  lemma {:induction false} InvStored(s: System, id: nat, h: Hop, h': Hop)
    requires Inv(s) && id in s.hops && s.hops[id] == h && h.phase.Fresh?
    requires !h.head.captureNetwork && h.key !in s.pool.entries && Disciplined(h')
    requires h' == h.(phase := Exchanging(h.phase.connection, Pooled(s.pool.generations), false),
                      exchanges := h.exchanges + 1)
    ensures Inv(OfferConnection(s, id, h))
  {
    hide Disciplined, PoolSound, OpenSound;
    var c', g := h.phase.connection, s.pool.generations;
    var s' := OfferConnection(s, id, h);
    assert HopSound(s, id, h);
    assert Closes(h) == {c'} && Closes(h') == {};
    hide Closes;
    assert s'.stored == s.stored[g := c'] && s'.hops == s.hops[id := h'] && s'.open == s.open;
    assert s'.pool == PoolState(s.pool.entries[h.key := Entry(c', g)], g + 1);
    StoredPoolSound(s, s', id, c');
    StoredOpenSound(s, s', id, c');
    OthersKeep(s, s', id);
  }

  lemma {:induction false} StoredOpenSound(s: System, s': System, id: nat, c': Connection)
    requires OpenSound(s) && id in s.hops && id in s'.hops && s'.open == s.open
    requires c'.dialledBy == id && c'.dialledFor !in s.pool.entries
    requires s'.hops == s.hops[id := s'.hops[id]] && Closes(s.hops[id]) == {c'} && Closes(s'.hops[id]) == {}
    requires s'.pool.entries == s.pool.entries[c'.dialledFor := Entry(c', s.pool.generations)]
    ensures OpenSound(s')
  {
    hide Closes;
    forall c ensures c in s'.open <==> InPool(s'.pool, c) || OwnedByHop(s', c) {
      assert OwnedByHop(s', c) <==> OwnedByHop(s, c) && c != c';
      assert InPool(s'.pool, c) <==> InPool(s.pool, c) || c == c';
    }
  }

  lemma {:induction false} StoredPoolSound(s: System, s': System, id: nat, c: Connection)
    requires PoolSound(s) && c !in s.stored.Values && !c.captured && c.dialledBy in s.hops
    requires s.hops.Keys <= s'.hops.Keys && s'.stored == s.stored[s.pool.generations := c]
    requires s'.pool == PoolState(s.pool.entries[c.dialledFor := Entry(c, s.pool.generations)], s.pool.generations + 1)
    ensures PoolSound(s') && s.pool.generations !in s.stored
  {
    assert forall g | g in s.stored :: s.stored[g] in s.stored.Values;
  }

  lemma {:induction false} InvSwept(s: System, dead: set<Connection>)
    requires Inv(s)
    ensures Inv(Next(s, Sweep(dead)))
  {
    hide Disciplined, Closes;
    var s' := Next(s, Sweep(dead));
    assert PoolSound(s');
    forall c ensures c in s'.open <==> InPool(s'.pool, c) || OwnedByHop(s', c) {
      assert OwnedByHop(s', c) <==> OwnedByHop(s, c);
      if InPool(s.pool, c) { PooledIsNotOwned(s, c); }
    }
  }

  lemma {:induction false} InvSpawned(s: System, id: nat, h: Hop)
    requires Inv(s) && id !in s.hops && Disciplined(h) && h.phase.Starting?
    ensures Inv(Moved(s, id, h))
  {
    hide Disciplined;
    var s' := Moved(s, id, h);
    assert PoolSound(s');
    forall c ensures c in s'.open <==> InPool(s'.pool, c) || OwnedByHop(s', c) {
      assert OwnedByHop(s', c) <==> OwnedByHop(s, c);
    }
    forall i | i in s'.hops ensures HopSound(s', i, s'.hops[i]) {
      assert i in s.hops ==> HopSound(s, i, s.hops[i]);
    }
  }

  /** The moves that touch neither the pool nor what is open. */
  predicate Quiet(move: Move) {
    match move
    case Begin => true
    case HeadCrosses => true
    case ExchangeFails => true
    case ResponseArrives => true
    case DialFails => true
    case _ => false
  }

  lemma {:induction false} InvQuietMove(s: System, id: nat, move: Move)
    requires Inv(s) && id in s.hops && CanMove(s.hops[id].phase, move) && Quiet(move)
    ensures Inv(HopStep(s, id, s.hops[id], move))
  {
    hide PoolSound, OpenSound, Disciplined;
    var h := s.hops[id];
    assert HopSound(s, id, h);
    QuietMoveIsDisciplined(s, id, h, move);
    QuietMoveWorks(s, id, h, move);
    InvMoved(s, id, HopStep(s, id, h, move).hops[id]);
  }

  lemma {:induction false} QuietMoveWorks(s: System, id: nat, h: Hop, move: Move)
    requires PoolSound(s) && WorksSoundly(s, h) && CanMove(h.phase, move) && Quiet(move)
    ensures var s' := HopStep(s, id, h, move);
            var h' := s'.hops[id];
            s' == Moved(s, id, h') && WorksSoundly(s, h') && Closes(h') == Closes(h) &&
            h'.key == h.key && h'.head == h.head && h'.dials >= h.dials
  {
  }

  lemma {:induction false} QuietMoveIsDisciplined(s: System, id: nat, h: Hop, move: Move)
    requires Disciplined(h) && CanMove(h.phase, move) && Quiet(move)
    ensures Disciplined(HopStep(s, id, h, move).hops[id])
  {
    hide Idempotent;
  }

  lemma {:induction false} InvDropStale(s: System, id: nat)
    requires Inv(s) && id in s.hops && s.hops[id].phase.Stale?
    ensures Inv(DropStaleConnection(s, id, s.hops[id]))
  {
    hide Disciplined, Idempotent, PoolSound, OpenSound;
    var h := s.hops[id];
    assert HopSound(s, id, h);
    InvEvict(s, h.key, h.phase.generation);
    StaleIsDisciplined(h);
    var phase := if h.phase.sent && !Idempotent(h.head.verb) then Done else Dialling;
    InvMoved(Evict(s, h.key, h.phase.generation), id, h.(phase := phase));
  }

  lemma {:induction false} StaleIsDisciplined(h: Hop)
    requires Disciplined(h) && h.phase.Stale?
    ensures Disciplined(h.(phase := if h.phase.sent && !Idempotent(h.head.verb) then Done else Dialling))
  {
    hide Idempotent;
  }

  lemma {:induction false} InvEndStream(s: System, id: nat, ok: bool)
    requires Inv(s) && id in s.hops && s.hops[id].phase.Streaming?
    ensures Inv(EndStream(s, id, s.hops[id], ok))
  {
    hide PoolSound, OpenSound, Idempotent;
    var h := s.hops[id];
    assert HopSound(s, id, h);
    if !ok && h.phase.slot.Pooled? {
      InvMoved(s, id, h.(phase := Failed(h.phase.connection, h.phase.slot)));
    } else {
      InvEnded(s, id);
    }
  }

  lemma {:induction false} InvSettle(s: System, id: nat)
    requires Inv(s) && id in s.hops && s.hops[id].phase.Failed?
    ensures Inv(SettleFailure(s, id, s.hops[id]))
  {
    hide PoolSound, OpenSound, Idempotent;
    var h := s.hops[id];
    assert HopSound(s, id, h);
    if h.phase.slot.Pooled? {
      InvEvict(s, h.key, h.phase.slot.generation);
      InvMoved(Evict(s, h.key, h.phase.slot.generation), id, h.(phase := Done));
    } else {
      InvEnded(s, id);
    }
  }

  lemma {:induction false} InvStep(s: System, a: Action)
    requires Inv(s) && Enabled(s, a)
    ensures Inv(Next(s, a))
  {
    hide Inv;
    match a
    case Spawn(id, host, port, head, buildable) =>
      InvSpawned(s, id, Hop(KeyOf(host, port, head), head, buildable, Starting, 0, 0, 0, false));
    case Sweep(dead) => InvSwept(s, dead);
    case Step(id, move) =>
      match move
      case DropStale => InvDropStale(s, id);
      case DialSucceeds => InvDialled(s, id);
      case Offer => InvOffer(s, id);
      case StreamEnds(ok) => InvEndStream(s, id, ok);
      case Settle => InvSettle(s, id);
      case Cancel => InvEnded(s, id);
      case _ => InvQuietMove(s, id, move);
  }
}
