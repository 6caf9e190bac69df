/** The native-messaging codec: a length-prefixed stream decoder with a cap and a failure latch. */
module NmFraming {
  import opened Wrappers
  import opened Bytes

  const LENGTH_PREFIX_BYTES := 4
  const MAX_INBOUND_FRAME_BYTES := 64 * 1024

  /** What the hooks are told, in order. */
  datatype Report<V> = Message(value: V) | Oversize(length: nat) | BadJson

  /** What reading a buffer comes to: the reports, the unread rest, and the latch. */
  datatype Outcome<V> = Outcome(reports: seq<Report<V>>, rest: Octets, failed: bool)

  function Before<V>(report: Report<V>, o: Outcome<V>): Outcome<V> { o.(reports := [report] + o.reports) }

  function Decode<V>(b: Octets, parse: Octets -> Option<V>): Outcome<V>
    decreases |b|
  {
    if |b| < LENGTH_PREFIX_BYTES then Outcome([], b, false)
    else
      var length := ReadU32LE(b);
      if length > MAX_INBOUND_FRAME_BYTES then Outcome([Oversize(length)], b, true)
      else if |b| < LENGTH_PREFIX_BYTES + length then Outcome([], b, false)
      else
        var body, rest := b[LENGTH_PREFIX_BYTES..LENGTH_PREFIX_BYTES + length], b[LENGTH_PREFIX_BYTES + length..];
        match parse(body)
        case None => Outcome([BadJson], rest, true)
        case Some(value) => Before(Message(value), Decode(rest, parse))
  }

  /** `JSON.stringify` gives the body; its length is the prefix. */
  function Encode(json: Octets): Octets
    requires |json| < 0x1_0000_0000
  {
    U32LE(|json|) + json
  }

  class Decoder<V> {
    const parse: Octets -> Option<V>
    var buffered: Octets
    var failed: bool

    constructor (parse: Octets -> Option<V>)
      ensures this.parse == parse && buffered == [] && !failed
    {
      this.parse := parse;
      buffered, failed := [], false;
    }

    /** What the hooks are told for one chunk; after a failure, nothing. */
    method Push(chunk: Octets) returns (told: seq<Report<V>>)
      modifies this
      ensures old(failed) ==> told == [] && failed && buffered == old(buffered)
      ensures !old(failed) ==> Outcome(told, buffered, failed) == Decode(old(buffered) + chunk, parse)
    {
      hide Decode, ReadU32LE;
      told := [];
      if failed { return; }
      buffered := buffered + chunk;
      ghost var all := Decode(buffered, parse);
      while |buffered| >= LENGTH_PREFIX_BYTES
        invariant !failed
        invariant all == Joined(told, Decode(buffered, parse))
        decreases |buffered|
      {
        DecodeStep(told, buffered, parse);
        var length := ReadU32LE(buffered);
        if length > MAX_INBOUND_FRAME_BYTES {
          failed := true;
          told := told + [Oversize(length)];
          return;
        }
        if |buffered| < LENGTH_PREFIX_BYTES + length { return; }
        var body := buffered[LENGTH_PREFIX_BYTES..LENGTH_PREFIX_BYTES + length];
        buffered := buffered[LENGTH_PREFIX_BYTES + length..];
        match parse(body) {
          case None =>
            failed := true;
            told := told + [BadJson];
            return;
          case Some(value) =>
            told := told + [Message(value)];
        }
      }
      DecodeShort(told, buffered, parse);
    }
  }

  function Joined<V>(reports: seq<Report<V>>, o: Outcome<V>): Outcome<V> { o.(reports := reports + o.reports) }

  lemma {:induction false} DecodeShort<V>(told: seq<Report<V>>, b: Octets, parse: Octets -> Option<V>)
    requires |b| < 4
    ensures Joined(told, Decode(b, parse)) == Outcome(told, b, false)
  {
  }

  /** One turn of the decoding loop with the reports before it accumulated. */
  lemma {:induction false} DecodeStep<V>(told: seq<Report<V>>, b: Octets, parse: Octets -> Option<V>)
    requires |b| >= 4
    ensures var length := ReadU32LE(b);
            var o := Joined(told, Decode(b, parse));
            if length > MAX_INBOUND_FRAME_BYTES then o == Outcome(told + [Oversize(length)], b, true)
            else if |b| < 4 + length then o == Outcome(told, b, false)
            else
              var body, rest := b[4..4 + length], b[4 + length..];
              if parse(body).None? then o == Outcome(told + [BadJson], rest, true)
              else o == Joined(told + [Message(parse(body).value)], Decode(rest, parse))
  {
    hide ReadU32LE;
    var length := ReadU32LE(b);
    if length <= MAX_INBOUND_FRAME_BYTES && 4 + length <= |b| && parse(b[4..4 + length]).Some? {
      var message := Message(parse(b[4..4 + length]).value);
      var later := Decode(b[4 + length..], parse);
      assert told + ([message] + later.reports) == (told + [message]) + later.reports;
    }
  }

  /** The pushes of `chunks` one after the other; a failed decoder ignores the rest. */
  function Pushes<V>(b: Octets, parse: Octets -> Option<V>, chunks: seq<Octets>): Outcome<V>
    decreases |chunks|
  {
    if chunks == [] then Outcome([], b, false)
    else
      var o := Decode(b + chunks[0], parse);
      if o.failed then o
      else
        var later := Pushes(o.rest, parse, chunks[1..]);
        later.(reports := o.reports + later.reports)
  }

  /** Same reports and same latch; a failed decoder's buffer no longer matters. */
  predicate SameOutcome<V(==)>(o: Outcome<V>, o': Outcome<V>) {
    o.reports == o'.reports && o.failed == o'.failed && (!o.failed ==> o.rest == o'.rest)
  }

  lemma {:induction false} ReadAppend(b: Octets, c: Octets)
    requires |b| >= 4
    ensures ReadU32LE(b + c) == ReadU32LE(b)
  {
  }

  /** Reading `b` and then, unless that failed, `c` after what it left. */
  function ReadTwice<V>(b: Octets, c: Octets, parse: Octets -> Option<V>): Outcome<V> {
    var o := Decode(b, parse);
    if o.failed then o else Joined(o.reports, Decode(o.rest + c, parse))
  }

  predicate WholeFrame(b: Octets) {
    |b| >= 4 && ReadU32LE(b) <= MAX_INBOUND_FRAME_BYTES && 4 + ReadU32LE(b) <= |b|
  }

  lemma {:induction false} DecodeWholeFrame<V>(b: Octets, c: Octets, parse: Octets -> Option<V>)
    requires WholeFrame(b)
    ensures WholeFrame(b + c)
    ensures var n := 4 + ReadU32LE(b);
            Decode(b + c, parse) ==
            match parse(b[4..n])
            case None => Outcome([BadJson], b[n..] + c, true)
            case Some(value) => Before(Message(value), Decode(b[n..] + c, parse))
  {
    ReadAppend(b, c);
    var n := 4 + ReadU32LE(b);
    assert (b + c)[4..n] == b[4..n] && (b + c)[n..] == b[n..] + c;
  }

  lemma {:induction false} DecodeAppend<V>(b: Octets, c: Octets, parse: Octets -> Option<V>)
    ensures SameOutcome(Decode(b + c, parse), ReadTwice(b, c, parse))
    decreases |b|
  {
    hide Decode, ReadU32LE;
    if WholeFrame(b) {
      var n := 4 + ReadU32LE(b);
      DecodeWholeFrame(b, c, parse);
      DecodeWholeFrame(b, [], parse);
      assert b + [] == b && b[n..] + [] == b[n..];
      if parse(b[4..n]).Some? {
        DecodeAppend(b[n..], c, parse);
        var tail := Decode(b[n..], parse);
        var later := Decode(tail.rest + c, parse);
        var message := Message(parse(b[4..n]).value);
        assert [message] + (tail.reports + later.reports) == ([message] + tail.reports) + later.reports;
      }
    } else {
      DecodePartial(b, c, parse);
    }
  }

  lemma {:induction false} DecodePartial<V>(b: Octets, c: Octets, parse: Octets -> Option<V>)
    requires !WholeFrame(b)
    ensures SameOutcome(Decode(b + c, parse), ReadTwice(b, c, parse))
  {
    hide ReadU32LE;
    if |b| >= 4 { ReadAppend(b, c); }
    var later := Decode(b + c, parse);
    assert [] + later.reports == later.reports;
  }

  lemma {:induction false} DecodeSettles<V>(b: Octets, parse: Octets -> Option<V>)
    ensures var o := Decode(b, parse); !o.failed ==> Decode(o.rest, parse) == Outcome([], o.rest, false)
    decreases |b|
  {
    hide ReadU32LE;
    if |b| >= LENGTH_PREFIX_BYTES {
      var n := LENGTH_PREFIX_BYTES + ReadU32LE(b);
      if ReadU32LE(b) <= MAX_INBOUND_FRAME_BYTES && n <= |b| { DecodeSettles(b[n..], parse); }
    }
  }

  /** Messages, first protocol error and latch depend on the bytes alone, for every chunking. */
  lemma {:induction false} ChunksDoNotMatter<V>(b: Octets, parse: Octets -> Option<V>, chunks: seq<Octets>)
    requires Decode(b, parse) == Outcome([], b, false)
    ensures SameOutcome(Pushes(b, parse, chunks), Decode(b + Concat(chunks), parse))
    decreases |chunks|
  {
    if chunks == [] {
      assert b + [] == b;
    } else {
      var x, rest := b + chunks[0], Concat(chunks[1..]);
      assert b + Concat(chunks) == x + rest;
      DecodeAppend(x, rest, parse);
      hide Decode;
      var o := Decode(x, parse);
      if !o.failed {
        DecodeSettles(x, parse);
        ChunksDoNotMatter(o.rest, parse, chunks[1..]);
      }
    }
  }

  predicate Failure<V(==)>(r: Report<V>) { !r.Message? }

  /** At most one protocol error is told, it is the last report, and it is told exactly when the latch is set. */
  lemma {:induction false} FailureIsLast<V>(b: Octets, parse: Octets -> Option<V>)
    ensures var o := Decode(b, parse);
            && (forall i | 0 <= i < |o.reports| - 1 :: o.reports[i].Message?)
            && (o.failed <==> o.reports != [] && Failure(o.reports[|o.reports| - 1]))
    decreases |b|
  {
    hide ReadU32LE;
    if |b| >= LENGTH_PREFIX_BYTES {
      var n := LENGTH_PREFIX_BYTES + ReadU32LE(b);
      if ReadU32LE(b) <= MAX_INBOUND_FRAME_BYTES && n <= |b| && parse(b[LENGTH_PREFIX_BYTES..n]).Some? {
        FailureIsLast(b[n..], parse);
      }
    }
  }

  function EncodeAll(jsons: seq<Octets>): Octets
    requires forall j | j in jsons :: |j| < 0x1_0000_0000
  {
    if jsons == [] then [] else Encode(jsons[0]) + EncodeAll(jsons[1..])
  }

  function Messages<V>(jsons: seq<Octets>, parse: Octets -> Option<V>): seq<Report<V>>
    requires forall j | j in jsons :: parse(j).Some?
  {
    if jsons == [] then [] else [Message(parse(jsons[0]).value)] + Messages(jsons[1..], parse)
  }

  /** The wire: four bytes of length, the first one weighing least, and the body. */
  lemma {:induction false} WireIsExact(json: Octets)
    requires |json| < 0x1_0000_0000
    ensures var wire := Encode(json);
            && |wire| == 4 + |json| && wire[4..] == json
            && |json| == FromBytes(wire[0], wire[1], wire[2], wire[3])
  {
    hide U32LE, ReadU32LE, FromBytes;
    var b := U32LE(|json|);
    assert b == [b[0], b[1], b[2], b[3]];
    LittleEndianExactly(|json|, b[0], b[1], b[2], b[3]);
  }

  lemma {:induction false} DecodeOne<V>(json: Octets, tail: Octets, parse: Octets -> Option<V>)
    requires |json| <= MAX_INBOUND_FRAME_BYTES && parse(json).Some?
    ensures Decode(Encode(json) + tail, parse) == Before(Message(parse(json).value), Decode(tail, parse))
  {
    var s := Encode(json) + tail;
    assert s == U32LE(|json|) + (json + tail);
    ReadBack(|json|);
    ReadAppend(U32LE(|json|), json + tail);
    assert s[4..4 + |json|] == json && s[4 + |json|..] == tail;
  }

  /** Encoded messages within the cap decode to exactly those messages, then to whatever follows them. */
  lemma {:induction false} EncodedMessagesDecode<V>(jsons: seq<Octets>, tail: Octets, parse: Octets -> Option<V>)
    requires forall j | j in jsons :: |j| <= MAX_INBOUND_FRAME_BYTES && parse(j).Some?
    ensures var o := Decode(tail, parse);
            Decode(EncodeAll(jsons) + tail, parse) == o.(reports := Messages(jsons, parse) + o.reports)
  {
    hide Decode, Encode;
    var o := Decode(tail, parse);
    if jsons == [] {
      assert EncodeAll(jsons) + tail == tail && [] + o.reports == o.reports;
    } else {
      var first, rest := jsons[0], jsons[1..];
      assert EncodeAll(jsons) + tail == Encode(first) + (EncodeAll(rest) + tail);
      DecodeOne(first, EncodeAll(rest) + tail, parse);
      EncodedMessagesDecode(rest, tail, parse);
      var m := Message(parse(first).value);
      assert [m] + (Messages(rest, parse) + o.reports) == ([m] + Messages(rest, parse)) + o.reports;
    }
  }

  /** The round trip in chunks: exactly the messages sent, nothing left over, no failure. */
  lemma {:induction false} RoundTripInChunks<V>(jsons: seq<Octets>, parse: Octets -> Option<V>, chunks: seq<Octets>)
    requires forall j | j in jsons :: |j| <= MAX_INBOUND_FRAME_BYTES && parse(j).Some?
    requires Concat(chunks) == EncodeAll(jsons)
    ensures Pushes([], parse, chunks) == Outcome(Messages(jsons, parse), [], false)
  {
    hide Encode;
    ChunksDoNotMatter([], parse, chunks);
    EncodedMessagesDecode(jsons, [], parse);
    assert [] + Concat(chunks) == EncodeAll(jsons) + [] == EncodeAll(jsons);
    assert Messages(jsons, parse) + [] == Messages(jsons, parse);
  }

  /** A message past the cap fails the stream at its prefix, whatever its body and whatever follows. */
  lemma {:induction false} OversizeFails<V>(json: Octets, tail: Octets, parse: Octets -> Option<V>)
    requires MAX_INBOUND_FRAME_BYTES < |json| < 0x1_0000_0000
    ensures Decode(Encode(json) + tail, parse).reports == [Oversize(|json|)]
  {
    var s := Encode(json) + tail;
    assert s == U32LE(|json|) + (json + tail);
    ReadBack(|json|);
    ReadAppend(U32LE(|json|), json + tail);
  }
}
