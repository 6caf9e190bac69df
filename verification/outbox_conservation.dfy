/** No envelope is lost without a named reason, over any run of sends, drains, discards and invocations. */
module OutboxConservation {
  import opened Outbox

  ghost predicate Sealed(s: State, id: nat) { exists e <- s.entries :: e.id == id }

  ghost predicate Settled(s: State, id: nat) { exists r <- s.settled :: r.entry.id == id }

  ghost predicate Ascending(entries: seq<Entry>) {
    forall i, j | 0 <= i < j < |entries| :: entries[i].id < entries[j].id
  }

  /** Every envelope ever sent is sealed, or settled once with one fate, and never both. */
  ghost predicate Accounted(s: State) {
    && Ascending(s.entries)
    && (forall e <- s.entries :: e.id < s.next)
    && (forall r <- s.settled :: r.entry.id < s.next)
    && (forall i, j | 0 <= i < j < |s.settled| :: s.settled[i].entry.id != s.settled[j].entry.id)
    && (forall e <- s.entries, r <- s.settled :: e.id != r.entry.id)
    && (forall id | 0 <= id < s.next :: Sealed(s, id) || Settled(s, id))
  }

  function FateOf(d: Delivery): Fate
    requires d != Undelivered
  {
    if d == Delivered then Taken else Refused
  }

  ghost predicate SettledAs(s: State, id: nat, fate: Fate) {
    exists r <- s.settled :: r.entry.id == id && r.fate == fate
  }

  /** What the wire answered is what the envelope was settled as, and nothing answered is tried again. */
  ghost predicate Honest(s: State) {
    && (forall a <- s.attempts :: a.id < s.next)
    && (forall a <- s.attempts :: a.outcome != Undelivered ==> SettledAs(s, a.id, FateOf(a.outcome)))
    && (forall r <- s.settled :: r.fate == Taken ==> Attempt(r.entry.id, Delivered) in s.attempts)
    && (forall r <- s.settled :: r.fate == Refused ==> Attempt(r.entry.id, Rejected) in s.attempts)
    && (forall i, j | 0 <= i < j < |s.attempts| ::
          s.attempts[i].id == s.attempts[j].id ==> s.attempts[i].outcome == Undelivered)
  }

  /** The running invocation meets at most one unknown delivery: its last attempt, after which the circuit is open. */
  ghost predicate OneFailure(s: State) {
    && s.invocation <= |s.attempts|
    && (forall i | s.invocation <= i < |s.attempts| - 1 :: s.attempts[i].outcome != Undelivered)
    && (s.down <==> s.invocation < |s.attempts| && s.attempts[|s.attempts| - 1].outcome == Undelivered)
  }

  /** An envelope fails at most five drains. */
  ghost predicate Patient(s: State) {
    && (forall id: nat :: s.failed[id] <= MAX_ATTEMPTS)
    && (forall id: nat | id >= s.next :: s.failed[id] == 0)
    && (forall e <- s.entries :: s.failed[e.id] <= e.attempts && (s.failed[e.id] > 0 ==> e.attempts < MAX_ATTEMPTS))
  }

  ghost predicate Inv(s: State) {
    Accounted(s) && Honest(s) && OneFailure(s) && Patient(s)
  }

  // Selections of the entries

  lemma {:induction false} WithoutSelects(entries: seq<Entry>, id: nat)
    ensures forall e :: e in Without(entries, id) <==> e in entries && e.id != id
    ensures Ascending(entries) ==> Ascending(Without(entries, id))
  {
    if entries != [] {
      WithoutSelects(entries[1..], id);
      assert forall e :: e in entries <==> e == entries[0] || e in entries[1..];
      if Ascending(entries) {
        assert Ascending(entries[1..]) by { AscendingTail(entries); }
        AscendingHead(entries, Without(entries[1..], id));
      }
    }
  }

  lemma {:induction false} AscendingTail(entries: seq<Entry>)
    requires Ascending(entries) && entries != []
    ensures Ascending(entries[1..]) && forall e <- entries[1..] :: entries[0].id < e.id
  {
  }

  lemma {:induction false} AscendingHead(entries: seq<Entry>, rest: seq<Entry>)
    requires Ascending(entries) && entries != [] && Ascending(rest) && forall e <- rest :: e in entries[1..]
    ensures Ascending([entries[0]] + rest)
  {
    AscendingTail(entries);
  }

  lemma {:induction false} ChannelsSplit(entries: seq<Entry>, c: Channel)
    ensures forall e :: e in OfChannel(entries, c) <==> e in entries && e.channel == c
    ensures forall e :: e in NotOfChannel(entries, c) <==> e in entries && e.channel != c
    ensures Ascending(entries) ==> Ascending(OfChannel(entries, c)) && Ascending(NotOfChannel(entries, c))
  {
    if entries != [] {
      ChannelsSplit(entries[1..], c);
      assert forall e :: e in entries <==> e == entries[0] || e in entries[1..];
      if Ascending(entries) {
        AscendingTail(entries);
        AscendingHead(entries, OfChannel(entries[1..], c));
        AscendingHead(entries, NotOfChannel(entries[1..], c));
      }
    }
  }

  lemma {:induction false} BumpedIs(entries: seq<Entry>, id: nat)
    ensures forall i | 0 <= i < |entries| ::
      Bumped(entries, id)[i]
        == if entries[i].id == id then entries[i].(attempts := entries[i].attempts + 1) else entries[i]
  {
    if entries != [] { BumpedIs(entries[1..], id); }
  }

  // The steps

  lemma {:induction false} SettleKeeps(s: State, e: Entry, fate: Fate)
    requires Accounted(s) && e in s.entries
    ensures Accounted(s.(entries := Without(s.entries, e.id), settled := s.settled + [Record(e, fate)]))
  {
    WithoutSelects(s.entries, e.id);
    hide Without, Ascending;
    var t := s.(entries := Without(s.entries, e.id), settled := s.settled + [Record(e, fate)]);
    assert t.settled[|s.settled|] == Record(e, fate);
    forall id | 0 <= id < s.next ensures Sealed(t, id) || Settled(t, id) {
      if id == e.id {
        assert Record(e, fate) in t.settled;
      } else if Sealed(s, id) {
        var kept :| kept in s.entries && kept.id == id;
        assert kept in t.entries;
      } else {
        var r :| r in s.settled && r.entry.id == id;
        assert r in t.settled;
      }
    }
  }

  lemma {:induction false} AttemptKeepsHonest(s: State, t: State, id: nat, d: Delivery)
    requires Honest(s) && t.attempts == s.attempts + [Attempt(id, d)]
    requires s.settled <= t.settled && s.next <= t.next && id < t.next
    requires forall a <- s.attempts :: a.outcome != Undelivered ==> a.id != id
    requires d != Undelivered ==> SettledAs(t, id, FateOf(d))
    requires forall r <- t.settled[|s.settled|..] :: r.fate == Taken ==> r.entry.id == id && d == Delivered
    requires forall r <- t.settled[|s.settled|..] :: r.fate == Refused ==> r.entry.id == id && d == Rejected
    ensures Honest(t)
  {
    forall a | a in t.attempts && a.outcome != Undelivered ensures SettledAs(t, a.id, FateOf(a.outcome)) {
      if a in s.attempts {
        var r :| r in s.settled && r.entry.id == a.id && r.fate == FateOf(a.outcome);
        assert r in t.settled;
      }
    }
    forall r | r in t.settled && r.fate in {Taken, Refused}
      ensures Attempt(r.entry.id, if r.fate == Taken then Delivered else Rejected) in t.attempts
    {
      var k :| 0 <= k < |t.settled| && t.settled[k] == r;
      if k < |s.settled| {
        assert r in s.settled;
        assert Attempt(r.entry.id, if r.fate == Taken then Delivered else Rejected) in s.attempts;
      } else {
        assert t.settled[|s.settled|..][k - |s.settled|] == r;
        assert t.attempts[|s.attempts|] == Attempt(id, d);
      }
    }
  }

  lemma {:induction false} QuietKeepsHonest(s: State, t: State)
    requires Honest(s) && t.attempts == s.attempts && s.settled <= t.settled && s.next <= t.next
    requires forall r <- t.settled[|s.settled|..] :: r.fate != Taken && r.fate != Refused
    ensures Honest(t)
  {
    forall a | a in t.attempts && a.outcome != Undelivered ensures SettledAs(t, a.id, FateOf(a.outcome)) {
      var r :| r in s.settled && r.entry.id == a.id && r.fate == FateOf(a.outcome);
      assert r in t.settled;
    }
    assert forall k | |s.settled| <= k < |t.settled| :: t.settled[k] == t.settled[|s.settled|..][k - |s.settled|];
  }

  /** A sealed envelope has not been answered yet. */
  lemma {:induction false} SealedIsUnanswered(s: State, id: nat)
    requires Accounted(s) && Honest(s) && (Sealed(s, id) || id == s.next)
    ensures forall a <- s.attempts :: a.outcome != Undelivered ==> a.id != id
  {
  }

  lemma {:induction false} AccountedFrame(s: State, t: State)
    requires Accounted(s) && t.entries == s.entries && t.settled == s.settled && t.next == s.next
    ensures Accounted(t)
  {
    forall id | 0 <= id < s.next ensures Sealed(t, id) || Settled(t, id) {
      assert Sealed(s, id) || Settled(s, id);
    }
  }

  lemma {:induction false} AnsweredIsHonest(s: State, e: Entry, d: Delivery)
    requires Accounted(s) && Honest(s) && e in s.entries && d != Undelivered
    ensures Honest(Answered(s, e, d))
  {
    var t := Answered(s, e, d);
    SealedIsUnanswered(s, e.id);
    assert t.settled[|s.settled|] == Record(e, FateOf(d));
    assert Record(e, FateOf(d)) in t.settled;
    hide Honest, Without;
    AttemptKeepsHonest(s, t, e.id, d);
  }

  lemma {:induction false} AnsweredKeeps(s: State, e: Entry, d: Delivery)
    requires Inv(s) && e in s.entries && d != Undelivered && !s.down
    ensures Inv(Answered(s, e, d))
  {
    hide Accounted, Honest, Without;
    var t := Answered(s, e, d);
    SettleKeeps(s, e, FateOf(d));
    AccountedFrame(s.(entries := t.entries, settled := t.settled), t);
    AnsweredIsHonest(s, e, d);
    WithoutSelects(s.entries, e.id);
  }

  lemma {:induction false} BumpedAscends(entries: seq<Entry>, id: nat)
    requires Ascending(entries)
    ensures Ascending(Bumped(entries, id))
  {
    BumpedIs(entries, id);
    hide Bumped;
  }

  lemma {:induction false} BumpThenDrop(entries: seq<Entry>, id: nat)
    ensures Without(Bumped(entries, id), id) == Without(entries, id)
  {
    if entries != [] {
      BumpThenDrop(entries[1..], id);
      assert Bumped(entries, id)[1..] == Bumped(entries[1..], id);
    }
  }

  /** Counting a failure forgets no entry. */
  lemma {:induction false} BumpedCovers(entries: seq<Entry>, id: nat, e: Entry)
    requires e in entries
    ensures exists b <- Bumped(entries, id) :: b.id == e.id
  {
    BumpedIs(entries, id);
    hide Bumped;
    var i :| 0 <= i < |entries| && entries[i] == e;
    assert Bumped(entries, id)[i] in Bumped(entries, id);
  }

  lemma {:induction false} BumpedFrom(entries: seq<Entry>, id: nat, b: Entry) returns (e: Entry)
    requires b in Bumped(entries, id)
    ensures e in entries && b.id == e.id && b == if e.id == id then e.(attempts := e.attempts + 1) else e
  {
    BumpedIs(entries, id);
    hide Bumped;
    var i :| 0 <= i < |entries| && Bumped(entries, id)[i] == b;
    e := entries[i];
  }

  lemma {:induction false} BumpKeeps(s: State, id: nat)
    requires Accounted(s)
    ensures Accounted(s.(entries := Bumped(s.entries, id)))
  {
    hide Bumped, Ascending;
    BumpedAscends(s.entries, id);
    var t := s.(entries := Bumped(s.entries, id));
    forall b | b in t.entries ensures Sealed(s, b.id) {
      var e := BumpedFrom(s.entries, id, b);
    }
    forall k | 0 <= k < s.next ensures Sealed(t, k) || Settled(t, k) {
      if Sealed(s, k) {
        var e :| e in s.entries && e.id == k;
        BumpedCovers(s.entries, id, e);
      } else {
        assert Settled(s, k);
      }
    }
  }

  lemma {:induction false} FailedIsAccounted(s: State, e: Entry)
    requires Accounted(s) && e in s.entries
    ensures Accounted(Failed(s, e))
  {
    hide Accounted, Without, Bumped;
    var t := Failed(s, e);
    SettleKeeps(s, e, Unrecoverable);
    BumpKeeps(s, e.id);
    AccountedFrame(s.(entries := t.entries, settled := t.settled), t);
  }

  lemma {:induction false} FailedIsHonest(s: State, e: Entry)
    requires Accounted(s) && Honest(s) && e in s.entries
    ensures Honest(Failed(s, e))
  {
    SealedIsUnanswered(s, e.id);
    hide Honest, Without, Bumped;
    AttemptKeepsHonest(s, Failed(s, e), e.id, Undelivered);
  }

  lemma {:induction false} FailedIsPatient(s: State, e: Entry)
    requires Accounted(s) && Patient(s) && e in s.entries
    ensures Patient(Failed(s, e))
  {
    hide Without, Bumped;
    WithoutSelects(s.entries, e.id);
    SameIdSameEntry(s);
    var t := Failed(s, e);
    forall b | b in t.entries
      ensures t.failed[b.id] <= b.attempts && (t.failed[b.id] > 0 ==> b.attempts < MAX_ATTEMPTS)
    {
      if e.attempts + 1 >= MAX_ATTEMPTS {
        assert b in s.entries && b.id != e.id;
      } else {
        var was := BumpedFrom(s.entries, e.id, b);
        assert was.id == e.id ==> was == e;
      }
    }
  }

  lemma {:induction false} SameIdSameEntry(s: State)
    requires Accounted(s)
    ensures forall d, e | d in s.entries && e in s.entries && d.id == e.id :: d == e
  {
  }

  lemma {:induction false} FailedKeeps(s: State, e: Entry)
    requires Inv(s) && e in s.entries && !s.down
    ensures Inv(Failed(s, e)) && Failed(s, e).down
  {
    hide Accounted, Honest, Patient, Without, Bumped;
    FailedIsAccounted(s, e);
    FailedIsHonest(s, e);
    FailedIsPatient(s, e);
  }

  function Pushed(s: State, e: Entry): State { s.(entries := s.entries + [e], next := s.next + 1) }

  lemma {:induction false} PushIsAccounted(s: State, e: Entry)
    requires Accounted(s) && e.id == s.next
    ensures Accounted(Pushed(s, e))
  {
    var t := Pushed(s, e);
    assert t.entries[|s.entries|] == e;
    forall id | 0 <= id < t.next ensures Sealed(t, id) || Settled(t, id) {
      PushFinds(s, e, id);
    }
    hide Sealed, Settled;
  }

  lemma {:induction false} PushFinds(s: State, e: Entry, id: nat)
    requires e.id == s.next && (id == s.next || Sealed(s, id) || Settled(s, id))
    ensures Sealed(Pushed(s, e), id) || Settled(Pushed(s, e), id)
  {
    var t := Pushed(s, e);
    assert e in t.entries;
    if id < s.next && Sealed(s, id) {
      var kept :| kept in s.entries && kept.id == id;
      assert kept in t.entries;
    }
  }

  lemma {:induction false} PushIsPatient(s: State, e: Entry)
    requires Patient(s) && e.id == s.next
    ensures Patient(Pushed(s, e))
  {
    assert s.failed[s.next] == 0;
    assert forall other <- s.entries + [e] :: other in s.entries || other == e;
  }

  /** A sealed body becomes the newest entry. */
  lemma {:induction false} PushKeeps(s: State, c: Channel, body: string)
    requires Inv(s)
    ensures Inv(s.(entries := s.entries + [Entry(s.next, c, body, 0)], next := s.next + 1))
  {
    hide Accounted, Honest, Patient;
    var e := Entry(s.next, c, body, 0);
    PushIsAccounted(s, e);
    PushIsPatient(s, e);
    QuietKeepsHonest(s, Pushed(s, e));
  }

  lemma {:induction false} FirstWithout(entries: seq<Entry>)
    requires Ascending(entries) && entries != []
    ensures Without(entries, entries[0].id) == entries[1..]
  {
    AscendingTail(entries);
    NothingWithout(entries[1..], entries[0].id);
  }

  lemma {:induction false} NothingWithout(entries: seq<Entry>, id: nat)
    requires forall e <- entries :: e.id != id
    ensures Without(entries, id) == entries
  {
    if entries != [] { NothingWithout(entries[1..], id); }
  }

  lemma {:induction false} AscendingEntries(s: State)
    requires Accounted(s)
    ensures Ascending(s.entries)
  {
  }

  lemma {:induction false} OverflowKeeps(s: State)
    requires Inv(s) && s.entries != []
    ensures Inv(s.(entries := s.entries[1..], settled := s.settled + [Record(s.entries[0], Overflowed)]))
  {
    hide Without, Accounted, Honest;
    assert Ascending(s.entries) by { AscendingEntries(s); }
    FirstWithout(s.entries);
    SettleKeeps(s, s.entries[0], Overflowed);
    var t := s.(entries := s.entries[1..], settled := s.settled + [Record(s.entries[0], Overflowed)]);
    QuietKeepsHonest(s, t);
  }

  lemma {:induction false} CappedKeeps(s: State)
    requires Inv(s)
    ensures var t := Capped(s);
            && Inv(t) && |t.entries| <= MAX_ENTRIES && |t.entries| <= |s.entries|
            && t.entries == s.entries[|s.entries| - |t.entries|..]
            && t == s.(entries := t.entries, settled := t.settled)
    decreases |s.entries|
  {
    hide Inv;
    if |s.entries| > MAX_ENTRIES {
      OverflowKeeps(s);
      CappedKeeps(s.(entries := s.entries[1..], settled := s.settled + [Record(s.entries[0], Overflowed)]));
    }
  }

  /** Sealing leaves at most eight entries: the newest ones, the new body last. */
  lemma {:induction false} PutKeeps(s: State, c: Channel, body: string)
    requires Inv(s)
    ensures var t := Put(s, c, body);
            && Inv(t) && |t.entries| <= MAX_ENTRIES && t.next == s.next + 1
            && t.entries == (s.entries + [Entry(s.next, c, body, 0)])[|s.entries| + 1 - |t.entries|..]
  {
    hide Inv, Capped;
    PushKeeps(s, c, body);
    CappedKeeps(s.(entries := s.entries + [Entry(s.next, c, body, 0)], next := s.next + 1));
  }

  lemma {:induction false} DirectIsAccounted(s: State, e: Entry, fate: Fate)
    requires Accounted(s) && e.id == s.next
    ensures Accounted(s.(next := s.next + 1, settled := s.settled + [Record(e, fate)]))
  {
    hide Ascending;
    var t := s.(next := s.next + 1, settled := s.settled + [Record(e, fate)]);
    assert t.settled[|s.settled|] == Record(e, fate);
    assert Record(e, fate) in t.settled;
    forall id | 0 <= id < t.next ensures Sealed(t, id) || Settled(t, id) {
      if id < s.next && Sealed(s, id) {
        var kept :| kept in s.entries && kept.id == id;
        assert kept in t.entries;
      } else if id < s.next {
        var was :| was in s.settled && was.entry.id == id;
        assert was in t.settled;
      }
    }
  }

  lemma {:induction false} DirectKeeps(s: State, c: Channel, body: string, d: Delivery)
    requires Inv(s) && !s.down && d != Undelivered
    ensures Inv(Send(s, c, body, d))
  {
    hide Accounted, Honest;
    var t, e := Send(s, c, body, d), Entry(s.next, c, body, 0);
    DirectIsAccounted(s, e, FateOf(d));
    AccountedFrame(s.(next := s.next + 1, settled := t.settled), t);
    DirectIsHonest(s, t, e, d);
  }

  lemma {:induction false} DirectIsHonest(s: State, t: State, e: Entry, d: Delivery)
    requires Accounted(s) && Honest(s) && d != Undelivered && e.id == s.next && t.next == s.next + 1
    requires t.settled == s.settled + [Record(e, FateOf(d))] && t.attempts == s.attempts + [Attempt(e.id, d)]
    ensures Honest(t)
  {
    SealedIsUnanswered(s, s.next);
    assert t.settled[|s.settled|] == Record(e, FateOf(d));
    assert Record(e, FateOf(d)) in t.settled;
    hide Accounted, Honest;
    AttemptKeepsHonest(s, t, s.next, d);
  }

  lemma {:induction false} UnknownIsHonest(s: State, t: State)
    requires Accounted(s) && Honest(s) && t.settled == s.settled && t.next == s.next + 1
    requires t.attempts == s.attempts + [Attempt(s.next, Undelivered)]
    ensures Honest(t)
  {
    SealedIsUnanswered(s, s.next);
    hide Honest, Accounted;
    AttemptKeepsHonest(s, t, s.next, Undelivered);
  }

  lemma {:induction false} UnknownKeeps(s: State, c: Channel, body: string)
    requires Inv(s) && !s.down
    ensures Inv(Send(s, c, body, Undelivered))
  {
    hide Accounted, Honest, Capped;
    var e := Entry(s.next, c, body, 0);
    PushKeeps(s, c, body);
    var pushed := s.(entries := s.entries + [e], next := s.next + 1);
    var t := pushed.(down := true, attempts := s.attempts + [Attempt(s.next, Undelivered)]);
    AccountedFrame(pushed, t);
    UnknownIsHonest(s, t);
    CappedKeeps(t);
  }

  lemma {:induction false} SendKeeps(s: State, c: Channel, body: string, d: Delivery)
    requires Inv(s)
    ensures Inv(Send(s, c, body, d))
  {
    if s.down {
      PutKeeps(s, c, body);
    } else if d == Undelivered {
      UnknownKeeps(s, c, body);
    } else {
      DirectKeeps(s, c, body, d);
    }
  }

  /** What is forgotten is settled and the rest stays: no envelope disappears. */
  lemma {:induction false} DiscardCovers(s: State, c: Channel, id: nat)
    requires Sealed(s, id) || Settled(s, id)
    ensures Sealed(Discard(s, c), id) || Settled(Discard(s, c), id)
  {
    ChannelsSplit(s.entries, c);
    hide OfChannel, NotOfChannel, Ascending;
    var t, gone := Discard(s, c), OfChannel(s.entries, c);
    if Sealed(s, id) {
      var e :| e in s.entries && e.id == id;
      if e.channel == c {
        var i :| 0 <= i < |gone| && gone[i] == e;
        assert Records(gone, Discarded)[i] in t.settled;
      } else {
        assert e in t.entries;
      }
    } else {
      var r :| r in s.settled && r.entry.id == id;
      assert r in t.settled;
    }
  }

  /** The records of entries that were sealed until now: new to the settled ones, and distinct. */
  lemma {:induction false} RecordsAreNew(s: State, gone: seq<Entry>, fate: Fate)
    requires Accounted(s) && Ascending(gone) && forall e <- gone :: e in s.entries
    ensures var settled := s.settled + Records(gone, fate);
            && (forall i, j | 0 <= i < j < |settled| :: settled[i].entry.id != settled[j].entry.id)
            && (forall r <- settled :: r in s.settled || r.entry in gone)
  {
    var added := Records(gone, fate);
    var settled := s.settled + added;
    assert forall i | |s.settled| <= i < |settled| ::
      settled[i] == added[i - |s.settled|] && settled[i].entry == gone[i - |s.settled|] && settled[i].entry in gone;
    assert forall i | 0 <= i < |s.settled| :: settled[i] == s.settled[i] && settled[i] in s.settled;
  }

  lemma {:induction false} DiscardIsAccounted(s: State, c: Channel)
    requires Accounted(s)
    ensures Accounted(Discard(s, c))
  {
    ChannelsSplit(s.entries, c);
    AscendingEntries(s);
    var t, gone := Discard(s, c), OfChannel(s.entries, c);
    RecordsAreNew(s, gone, Discarded);
    SameIdSameEntry(s);
    hide OfChannel, NotOfChannel, Ascending, Records;
    forall id | 0 <= id < s.next ensures Sealed(t, id) || Settled(t, id) {
      assert Sealed(s, id) || Settled(s, id);
      DiscardCovers(s, c, id);
    }
  }

  lemma {:induction false} DiscardKeeps(s: State, c: Channel)
    requires Inv(s)
    ensures Inv(Discard(s, c))
  {
    ChannelsSplit(s.entries, c);
    hide Accounted, Honest, OfChannel, NotOfChannel;
    DiscardIsAccounted(s, c);
    QuietKeepsHonest(s, Discard(s, c));
  }

  /** Discarding a channel empties it and leaves the other alone. */
  lemma {:induction false} DiscardIsPrecise(entries: seq<Entry>, c: Channel, d: Channel)
    ensures OfChannel(NotOfChannel(entries, c), d) == if c == d then [] else OfChannel(entries, d)
  {
    if entries != [] {
      DiscardIsPrecise(entries[1..], c, d);
      if entries[0].channel != c {
        assert NotOfChannel(entries, c)[1..] == NotOfChannel(entries[1..], c);
      }
    }
  }

  lemma {:induction false} DrainQueueKeeps(s: State, queue: seq<Entry>, wire: nat -> Delivery)
    requires Inv(s) && !s.down && Ascending(queue) && forall e <- queue :: e in s.entries
    ensures Inv(DrainQueue(s, queue, wire))
    decreases |queue|
  {
    hide Accounted, Honest, Patient, OneFailure, Without;
    if |queue| > 0 {
      var e := queue[0];
      assert e in queue;
      if wire(e.id) == Undelivered {
        FailedKeeps(s, e);
      } else {
        AnsweredKeeps(s, e, wire(e.id));
        WithoutSelects(s.entries, e.id);
        AscendingTail(queue);
        assert forall later <- queue[1..] :: later in queue;
        DrainQueueKeeps(Answered(s, e, wire(e.id)), queue[1..], wire);
      }
    }
  }

  lemma {:induction false} DrainChannelKeeps(s: State, c: Channel, wires: set<Channel>, wire: nat -> Delivery)
    requires Inv(s)
    ensures Inv(DrainChannel(s, c, wires, wire))
  {
    AscendingEntries(s);
    ChannelsSplit(s.entries, c);
    hide Inv, DrainQueue;
    if c in wires && !s.down { DrainQueueKeeps(s, OfChannel(s.entries, c), wire); }
  }

  // Runs

  datatype Op =
    | SendOp(channel: Channel, body: string, outcome: Delivery)
    | DiscardOp(channel: Channel)
    | DrainOp(wires: set<Channel>, wire: nat -> Delivery)
    | NextOp

  function Step(s: State, op: Op): State {
    match op
    case SendOp(c, body, d) => Send(s, c, body, d)
    case DiscardOp(c) => Discard(s, c)
    case DrainOp(wires, wire) => Drain(s, wires, wire)
    case NextOp => NextInvocation(s)
  }

  function Run(s: State, ops: seq<Op>): State
    decreases |ops|
  {
    if ops == [] then s else Run(Step(s, ops[0]), ops[1..])
  }

  /** An outbox opened on a file with these entries; the first is the oldest. */
  function Opened(file: seq<(Channel, string, nat)>): State {
    var entries := seq(|file|, i requires 0 <= i < |file| => Entry(i, file[i].0, file[i].1, file[i].2));
    State(entries, false, |file|, [], [], 0, multiset{})
  }

  lemma {:induction false} OpenedIsSound(file: seq<(Channel, string, nat)>)
    ensures Inv(Opened(file))
  {
    var s := Opened(file);
    forall id | 0 <= id < s.next ensures Sealed(s, id) { assert s.entries[id] in s.entries; }
  }

  lemma {:induction false} RunKeeps(s: State, ops: seq<Op>)
    requires Inv(s)
    ensures Inv(Run(s, ops))
    decreases |ops|
  {
    hide Inv, Send, Discard, Drain, DrainChannel;
    if ops != [] {
      if ops[0].SendOp? {
        SendKeeps(s, ops[0].channel, ops[0].body, ops[0].outcome);
      } else if ops[0].DiscardOp? {
        DiscardKeeps(s, ops[0].channel);
      } else if ops[0].DrainOp? {
        DrainKeeps(s, ops[0].wires, ops[0].wire);
      } else {
        NextKeeps(s);
      }
      RunKeeps(Step(s, ops[0]), ops[1..]);
    }
  }

  /**
   * Conservation: whatever the file held, after any run of sends, drains, discards and invocations every
   * envelope is sealed or settled, never both, and settled once; the reason is what the wire said whenever it
   * said anything, and nothing it answered is tried again; no envelope fails more than five drains; and the
   * running invocation has seen at most one unknown delivery, its last attempt.
   */
  lemma {:induction false} EnvelopesAreConserved(file: seq<(Channel, string, nat)>, ops: seq<Op>)
    ensures var s := Run(Opened(file), ops);
            && (forall id | 0 <= id < s.next :: Sealed(s, id) != Settled(s, id))
            && (forall i, j | 0 <= i < j < |s.settled| :: s.settled[i].entry.id != s.settled[j].entry.id)
            && Honest(s)
            && (forall id: nat :: s.failed[id] <= MAX_ATTEMPTS)
            && (forall i | s.invocation <= i < |s.attempts| - 1 :: s.attempts[i].outcome != Undelivered)
            && (s.down <==> s.invocation < |s.attempts| && s.attempts[|s.attempts| - 1].outcome == Undelivered)
  {
    hide Run, Opened, Honest;
    OpenedIsSound(file);
    RunKeeps(Opened(file), ops);
    var s := Run(Opened(file), ops);
    forall id | 0 <= id < s.next ensures Sealed(s, id) != Settled(s, id) { NeverBoth(s, id); }
  }

  lemma {:induction false} NeverBoth(s: State, id: nat)
    requires Accounted(s)
    ensures !Sealed(s, id) || !Settled(s, id)
  {
  }

  lemma {:induction false} DrainKeeps(s: State, wires: set<Channel>, wire: nat -> Delivery)
    requires Inv(s)
    ensures Inv(Drain(s, wires, wire))
  {
    hide Inv, DrainChannel;
    DrainChannelKeeps(s, Usage, wires, wire);
    DrainChannelKeeps(DrainChannel(s, Usage, wires, wire), Errors, wires, wire);
  }

  lemma {:induction false} NextKeeps(s: State)
    requires Inv(s)
    ensures Inv(NextInvocation(s))
  {
    hide Accounted, Honest;
    AccountedFrame(s, NextInvocation(s));
    QuietKeepsHonest(s, NextInvocation(s));
  }

  // Order

  /** How many entries of the queue a drain tries: up to and including the first not known to have arrived. */
  function TriedCount(queue: seq<Entry>, wire: nat -> Delivery): (n: nat)
    ensures n <= |queue|
    ensures forall i | 0 <= i < n - 1 :: wire(queue[i].id) != Undelivered
    ensures n < |queue| ==> n > 0 && wire(queue[n - 1].id) == Undelivered
  {
    if |queue| == 0 then 0
    else if wire(queue[0].id) == Undelivered then 1
    else 1 + TriedCount(queue[1..], wire)
  }

  function Attempts(queue: seq<Entry>, wire: nat -> Delivery): seq<Attempt> {
    seq(|queue|, i requires 0 <= i < |queue| => Attempt(queue[i].id, wire(queue[i].id)))
  }

  /** A channel drains oldest first: the attempts are a prefix of its entries, up to the first unknown delivery. */
  lemma {:induction false} DrainsOldestFirst(s: State, queue: seq<Entry>, wire: nat -> Delivery)
    requires !s.down
    ensures var t, n := DrainQueue(s, queue, wire), TriedCount(queue, wire);
            && t.attempts == s.attempts + Attempts(queue[..n], wire)
            && (t.down <==> n > 0 && wire(queue[n - 1].id) == Undelivered)
    decreases |queue|
  {
    if |queue| > 0 {
      var e, n := queue[0], TriedCount(queue, wire);
      var first := Attempt(e.id, wire(e.id));
      if wire(e.id) == Undelivered {
        assert Attempts(queue[..1], wire) == [first];
      } else {
        DrainsOldestFirst(Answered(s, e, wire(e.id)), queue[1..], wire);
        assert queue[..n][1..] == queue[1..][..n - 1];
        assert Attempts(queue[..n], wire) == [first] + Attempts(queue[1..][..n - 1], wire);
        assert s.attempts + [first] + Attempts(queue[1..][..n - 1], wire) == s.attempts + Attempts(queue[..n], wire);
      }
    }
  }

  lemma {:induction false} WithoutInChannel(entries: seq<Entry>, id: nat, c: Channel)
    ensures OfChannel(Without(entries, id), c) == Without(OfChannel(entries, c), id)
  {
    if entries != [] {
      var rest := Without(entries[1..], id);
      WithoutInChannel(entries[1..], id, c);
      if entries[0].id != id { assert Without(entries, id)[1..] == rest; }
      if entries[0].channel == c { assert OfChannel(entries, c)[1..] == OfChannel(entries[1..], c); }
    }
  }

  lemma {:induction false} BumpedInChannel(entries: seq<Entry>, id: nat, c: Channel)
    ensures OfChannel(Bumped(entries, id), c) == Bumped(OfChannel(entries, c), id)
  {
    if entries != [] {
      BumpedInChannel(entries[1..], id, c);
      assert Bumped(entries, id)[1..] == Bumped(entries[1..], id);
      if entries[0].channel == c { assert OfChannel(entries, c)[1..] == OfChannel(entries[1..], c); }
    }
  }

  lemma {:induction false} NothingBumped(entries: seq<Entry>, id: nat)
    requires forall e <- entries :: e.id != id
    ensures Bumped(entries, id) == entries
  {
    BumpedIs(entries, id);
  }

  /** What a drain leaves of its queue: the failed entry, counted up, unless that was its fifth time, and the rest. */
  function Left(queue: seq<Entry>, wire: nat -> Delivery): seq<Entry> {
    if |queue| == 0 then []
    else if wire(queue[0].id) == Undelivered then
      var failed := queue[0].(attempts := queue[0].attempts + 1);
      (if failed.attempts >= MAX_ATTEMPTS then [] else [failed]) + queue[1..]
    else Left(queue[1..], wire)
  }

  /** A drained channel keeps exactly what was not answered; the other channel is not touched. */
  lemma {:induction false} DrainLeavesTheRest(s: State, c: Channel, wire: nat -> Delivery, d: Channel)
    requires Ascending(s.entries) && c != d
    ensures var t, queue := DrainQueue(s, OfChannel(s.entries, c), wire), OfChannel(s.entries, c);
            OfChannel(t.entries, c) == Left(queue, wire) && OfChannel(t.entries, d) == OfChannel(s.entries, d)
    decreases |s.entries|
  {
    var queue := OfChannel(s.entries, c);
    ChannelsSplit(s.entries, c);
    hide OfChannel, Without, Bumped, Ascending;
    if |queue| > 0 {
      var e := queue[0];
      assert e in queue && e in s.entries;
      OneEntryInChannels(s.entries, c, d);
      if wire(e.id) != Undelivered {
        WithoutSelects(s.entries, e.id);
        WithoutShrinks(s.entries, e);
        DrainLeavesTheRest(Answered(s, e, wire(e.id)), c, wire, d);
      }
    }
  }

  /** Taking out, or counting up, the first entry of a channel does just that, to this channel alone. */
  lemma {:induction false} OneEntryInChannels(entries: seq<Entry>, c: Channel, d: Channel)
    requires Ascending(entries) && c != d && OfChannel(entries, c) != []
    ensures var queue := OfChannel(entries, c);
            var e := queue[0];
            && OfChannel(Without(entries, e.id), c) == queue[1..]
            && OfChannel(Without(entries, e.id), d) == OfChannel(entries, d)
            && OfChannel(Bumped(entries, e.id), c) == [e.(attempts := e.attempts + 1)] + queue[1..]
            && OfChannel(Bumped(entries, e.id), d) == OfChannel(entries, d)
  {
    var queue := OfChannel(entries, c);
    var e := queue[0];
    ChannelsSplit(entries, c);
    assert e in queue;
    OnlyItself(entries, e, d);
    hide OfChannel, Without, Bumped;
    FirstWithout(queue);
    BumpedFirst(queue);
    WithoutInChannel(entries, e.id, c);
    WithoutInChannel(entries, e.id, d);
    BumpedInChannel(entries, e.id, c);
    BumpedInChannel(entries, e.id, d);
    NothingWithout(OfChannel(entries, d), e.id);
    NothingBumped(OfChannel(entries, d), e.id);
  }

  lemma {:induction false} OnlyItself(entries: seq<Entry>, e: Entry, d: Channel)
    requires Ascending(entries) && e in entries && e.channel != d
    ensures forall other <- OfChannel(entries, d) :: other.id != e.id
  {
    ChannelsSplit(entries, d);
  }

  lemma {:induction false} BumpedFirst(queue: seq<Entry>)
    requires Ascending(queue) && queue != []
    ensures Bumped(queue, queue[0].id) == [queue[0].(attempts := queue[0].attempts + 1)] + queue[1..]
  {
    AscendingTail(queue);
    NothingBumped(queue[1..], queue[0].id);
  }

  lemma {:induction false} WithoutShrinks(entries: seq<Entry>, e: Entry)
    requires e in entries
    ensures |Without(entries, e.id)| < |entries|
  {
    if entries[0].id != e.id { WithoutShrinks(entries[1..], e); }
  }
}
