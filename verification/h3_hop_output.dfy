/** The frames one hop writes: the response streamed out, or an honest error. */
module H3HopOutput {
  import opened Wrappers
  import opened Bytes
  import opened H3Framing

  const RESPONSE_HEAD: Byte := 0x20
  const RESPONSE_BODY: Byte := 0x21
  const RESPONSE_TRAILERS: Byte := 0x22
  const RESPONSE_END: Byte := 0x23
  const ERROR: Byte := 0x2E
  const BODY_CHUNK_BYTES := 64 * 1024

  /** How the response stream ends once its data chunks are in. */
  datatype BodyEnd = DataFails(error: Octets) | TrailersFail(error: Octets) | NoTrailers | Trailers(payload: Octets)

  /** A hop either fails before a response head, or has a head, data chunks and an end. */
  datatype Hop = FailsEarly(error: Octets) | Responds(head: Octets, chunks: seq<Octets>, end: BodyEnd)

  /** The writer's channel: it takes `capacity` more frames before the writer is gone. */
  class OutChannel {
    var sent: seq<Frame>
    var capacity: nat

    constructor (capacity: nat)
      ensures sent == [] && this.capacity == capacity
    {
      sent, this.capacity := [], capacity;
    }

    method Send(f: Frame) returns (ok: bool)
      modifies this
      ensures ok <==> old(capacity) > 0
      ensures ok ==> sent == old(sent) + [f] && capacity == old(capacity) - 1
      ensures !ok ==> sent == old(sent) && capacity == 0
    {
      ok := capacity > 0;
      if ok { sent, capacity := sent + [f], capacity - 1; }
    }
  }

  /** `chunks(BODY_CHUNK_BYTES)`: full slices and a shorter last one; nothing for nothing. */
  function Slices(b: Octets): seq<Octets> {
    if b == [] then []
    else if |b| <= BODY_CHUNK_BYTES then [b]
    else [b[..BODY_CHUNK_BYTES]] + Slices(b[BODY_CHUNK_BYTES..])
  }

  function BodyFrames(id: Id, slices: seq<Octets>): seq<Frame> {
    seq(|slices|, i requires 0 <= i < |slices| => Frame(RESPONSE_BODY, id, slices[i]))
  }

  function ChunkFrames(id: Id, chunks: seq<Octets>): seq<Frame> {
    if chunks == [] then [] else BodyFrames(id, Slices(chunks[0])) + ChunkFrames(id, chunks[1..])
  }

  function EndFrames(id: Id, end: BodyEnd): seq<Frame> {
    match end
    case DataFails(error) => [Frame(ERROR, id, error)]
    case TrailersFail(error) => [Frame(ERROR, id, error)]
    case NoTrailers => [Frame(RESPONSE_END, id, [])]
    case Trailers(payload) => [Frame(RESPONSE_TRAILERS, id, payload), Frame(RESPONSE_END, id, [])]
  }

  /** Everything a hop writes while the writer lives. */
  function Output(id: Id, hop: Hop): seq<Frame> {
    match hop
    case FailsEarly(error) => [Frame(ERROR, id, error)]
    case Responds(head, chunks, end) =>
      [Frame(RESPONSE_HEAD, id, head)] + ChunkFrames(id, chunks) + EndFrames(id, end)
  }

  /** All of `frames` went out, or the writer is gone and a prefix of them did. */
  twostate predicate Wrote(out: OutChannel, frames: seq<Frame>, ok: bool)
    reads out
  {
    if ok then out.sent == old(out.sent) + frames
    else out.capacity == 0 && out.sent <= old(out.sent) + frames
  }

  method SendSlices(id: Id, chunk: Octets, out: OutChannel) returns (ok: bool)
    modifies out
    ensures Wrote(out, BodyFrames(id, Slices(chunk)), ok)
  {
    var slices := Slices(chunk);
    ghost var frames := BodyFrames(id, slices);
    for i := 0 to |slices|
      invariant out.sent == old(out.sent) + frames[..i]
    {
      assert frames == frames[..i] + [frames[i]] + frames[i + 1..];
      var sent := out.Send(Frame(RESPONSE_BODY, id, slices[i]));
      if !sent { return false; }
    }
    ok := true;
  }

  method SendChunks(id: Id, chunks: seq<Octets>, out: OutChannel) returns (ok: bool)
    modifies out
    ensures Wrote(out, ChunkFrames(id, chunks), ok)
  {
    hide ChunkFrames, BodyFrames, Slices;
    ghost var frames := ChunkFrames(id, chunks);
    ghost var done: seq<Frame> := [];
    for i := 0 to |chunks|
      invariant done + ChunkFrames(id, chunks[i..]) == frames
      invariant out.sent == old(out.sent) + done
    {
      ghost var these, later := BodyFrames(id, Slices(chunks[i])), ChunkFrames(id, chunks[i + 1..]);
      NextChunk(id, chunks, i);
      Regroup(done, these, later);
      Regroup(old(out.sent), done, these);
      Regroup(old(out.sent), done + these, later);
      var sent := SendSlices(id, chunks[i], out);
      if !sent {
        PrefixOfMore(out.sent, old(out.sent) + (done + these), later);
        return false;
      }
      done := done + these;
    }
    NoMoreChunks(id, chunks);
    ok := true;
  }

  lemma {:induction false} NextChunk(id: Id, chunks: seq<Octets>, i: nat)
    requires i < |chunks|
    ensures ChunkFrames(id, chunks[i..]) == BodyFrames(id, Slices(chunks[i])) + ChunkFrames(id, chunks[i + 1..])
  {
    assert chunks[i..][1..] == chunks[i + 1..];
  }

  lemma {:induction false} NoMoreChunks(id: Id, chunks: seq<Octets>)
    ensures ChunkFrames(id, chunks[|chunks|..]) == []
  {
  }

  lemma {:induction false} Regroup(xs: seq<Frame>, ys: seq<Frame>, zs: seq<Frame>)
    ensures xs + (ys + zs) == xs + ys + zs
  {
  }

  lemma {:induction false} PrefixOfMore(s: seq<Frame>, t: seq<Frame>, more: seq<Frame>)
    requires s <= t
    ensures s <= t + more
  {
  }

  /** Head, data in slices, trailers, end; on failure, the error left to report. */
  method StreamResponse(id: Id, head: Octets, chunks: seq<Octets>, end: BodyEnd, out: OutChannel)
    returns (ok: bool, error: Octets)
    modifies out
    ensures var frames := Output(id, Responds(head, chunks, end));
            && (ok ==> Wrote(out, frames, true))
            && (!ok ==> Wrote(out, frames, false) || out.sent + [Frame(ERROR, id, error)] == old(out.sent) + frames)
  {
    error := [];
    ghost var first, body, last := [Frame(RESPONSE_HEAD, id, head)], ChunkFrames(id, chunks), EndFrames(id, end);
    ghost var all := old(out.sent) + (first + body + last);
    assert all == old(out.sent) + first + body + last;
    ok := out.Send(Frame(RESPONSE_HEAD, id, head));
    if !ok { return; }
    ok := SendChunks(id, chunks, out);
    if !ok {
      PrefixOfMore(out.sent, old(out.sent) + first + body, last);
      return;
    }
    match end {
      case DataFails(e) => return false, e;
      case TrailersFail(e) => return false, e;
      case NoTrailers =>
      case Trailers(payload) =>
        assert last == [last[0]] + [last[1]];
        ok := out.Send(Frame(RESPONSE_TRAILERS, id, payload));
        if !ok { return; }
    }
    ok := out.Send(Frame(RESPONSE_END, id, []));
  }

  /** One hop: its output, as far as the writer takes it. */
  method Run(id: Id, hop: Hop, out: OutChannel)
    modifies out
    ensures Wrote(out, Output(id, hop), true) || Wrote(out, Output(id, hop), false)
  {
    match hop {
      case FailsEarly(error) =>
        var sent := out.Send(Frame(ERROR, id, error));
      case Responds(head, chunks, end) =>
        var ok, error := StreamResponse(id, head, chunks, end, out);
        if !ok {
          var sent := out.Send(Frame(ERROR, id, error));
        }
    }
  }

  // The grammar of a hop's output

  /** BODY* [TRAILERS] END */
  predicate BodyThenEnd(fs: seq<Frame>) {
    fs != [] &&
    if fs[0].frameType == RESPONSE_BODY then BodyThenEnd(fs[1..])
    else if fs[0].frameType == RESPONSE_TRAILERS then |fs| == 2 && fs[1].frameType == RESPONSE_END
    else |fs| == 1 && fs[0].frameType == RESPONSE_END
  }

  /** HEAD BODY* [TRAILERS] END */
  predicate Complete(fs: seq<Frame>) {
    fs != [] && fs[0].frameType == RESPONSE_HEAD && BodyThenEnd(fs[1..])
  }

  /** A proper prefix of a complete output, then one ERROR. */
  ghost predicate Broken(fs: seq<Frame>) {
    && fs != [] && fs[|fs| - 1].frameType == ERROR
    && exists whole | Complete(whole) :: |fs| - 1 < |whole| && fs[..|fs| - 1] == whole[..|fs| - 1]
  }

  /** The body a reader of the frames puts together. */
  function BodyOf(fs: seq<Frame>): Octets {
    if fs == [] then []
    else (if fs[0].frameType == RESPONSE_BODY then fs[0].payload else []) + BodyOf(fs[1..])
  }

  lemma {:induction false} SlicesJoin(b: Octets)
    ensures Concat(Slices(b)) == b
    ensures forall s | s in Slices(b) :: 0 < |s| <= BODY_CHUNK_BYTES
  {
    if BODY_CHUNK_BYTES < |b| { SlicesJoin(b[BODY_CHUNK_BYTES..]); }
  }

  lemma {:induction false} BodyOfAppend(xs: seq<Frame>, ys: seq<Frame>)
    ensures BodyOf(xs + ys) == BodyOf(xs) + BodyOf(ys)
  {
    if xs == [] {
      assert xs + ys == ys;
    } else {
      assert (xs + ys)[1..] == xs[1..] + ys;
      BodyOfAppend(xs[1..], ys);
    }
  }

  lemma {:induction false} BodyOfSlices(id: Id, slices: seq<Octets>)
    ensures BodyOf(BodyFrames(id, slices)) == Concat(slices)
  {
    if slices != [] {
      assert BodyFrames(id, slices)[1..] == BodyFrames(id, slices[1..]);
      BodyOfSlices(id, slices[1..]);
    }
  }

  /** A data frame of this hop: never empty, never over the slice size. */
  predicate DataFrame(id: Id, f: Frame) {
    f.frameType == RESPONSE_BODY && f.id == id && 0 < |f.payload| <= BODY_CHUNK_BYTES
  }

  lemma {:induction false} ChunkFramesCarryBody(id: Id, chunks: seq<Octets>)
    ensures BodyOf(ChunkFrames(id, chunks)) == Concat(chunks)
    ensures forall f | f in ChunkFrames(id, chunks) :: DataFrame(id, f)
  {
    if chunks != [] {
      var slices := Slices(chunks[0]);
      SlicesJoin(chunks[0]);
      BodyOfSlices(id, slices);
      BodyOfAppend(BodyFrames(id, slices), ChunkFrames(id, chunks[1..]));
      ChunkFramesCarryBody(id, chunks[1..]);
      forall f | f in BodyFrames(id, slices) ensures DataFrame(id, f) {
        var i :| 0 <= i < |slices| && f == Frame(RESPONSE_BODY, id, slices[i]);
        assert slices[i] in slices;
      }
    }
  }

  lemma {:induction false} DataThenEnd(data: seq<Frame>, last: seq<Frame>)
    requires (forall f | f in data :: f.frameType == RESPONSE_BODY) && BodyThenEnd(last)
    ensures BodyThenEnd(data + last)
  {
    if data == [] {
      assert data + last == last;
    } else {
      assert (data + last)[1..] == data[1..] + last;
      DataThenEnd(data[1..], last);
    }
  }

  lemma {:induction false} EndIsEnd(id: Id, end: BodyEnd)
    ensures BodyThenEnd(EndFrames(id, end)) <==> end.NoTrailers? || end.Trailers?
    ensures BodyOf(EndFrames(id, end)) == []
    ensures forall f | f in EndFrames(id, end) :: f.id == id && f.frameType != RESPONSE_BODY
  {
    var fs := EndFrames(id, end);
    if end.Trailers? {
      var last := [Frame(RESPONSE_END, id, [])];
      assert fs[1..] == last && last[1..] == [];
      assert BodyOf(last) == [];
    }
  }

  lemma {:induction false} HeadHasNoBody(id: Id, payload: Octets)
    ensures BodyOf([Frame(RESPONSE_HEAD, id, payload)]) == []
  {
    assert [Frame(RESPONSE_HEAD, id, payload)][1..] == [];
  }

  lemma {:induction false} OutputJoins(id: Id, hop: Hop)
    requires hop.Responds?
    ensures Output(id, hop) ==
              [Frame(RESPONSE_HEAD, id, hop.head)] + ChunkFrames(id, hop.chunks) + EndFrames(id, hop.end)
  {
  }

  lemma {:induction false} ThreeParts(fs: seq<Frame>, a: seq<Frame>, b: seq<Frame>, c: seq<Frame>, f: Frame)
    requires fs == a + b + c
    ensures f in fs <==> f in a || f in b || f in c
  {
  }

  lemma {:induction false} ResponseCarriesBody(id: Id, head: seq<Frame>, chunks: seq<Octets>, end: BodyEnd)
    requires BodyOf(head) == []
    ensures BodyOf(head + ChunkFrames(id, chunks) + EndFrames(id, end)) == Concat(chunks)
  {
    hide *;
    var data, last := ChunkFrames(id, chunks), EndFrames(id, end);
    ChunkFramesCarryBody(id, chunks);
    EndIsEnd(id, end);
    BodyOfAppend(head, data);
    BodyOfAppend(head + data, last);
    assert [] + BodyOf(data) + [] == BodyOf(data);
  }

  /** A frame of this hop, and if it is a data frame one of the right size. */
  predicate OwnFrame(id: Id, f: Frame) { f.id == id && (f.frameType == RESPONSE_BODY ==> DataFrame(id, f)) }

  lemma {:induction false} ResponseFrames(id: Id, hop: Hop, f: Frame)
    requires hop.Responds? && f in Output(id, hop)
    ensures OwnFrame(id, f)
  {
    var head := [Frame(RESPONSE_HEAD, id, hop.head)];
    OutputJoins(id, hop);
    assert OwnFrame(id, head[0]);
    assert DataFrame(id, f) ==> OwnFrame(id, f);
    assert f.id == id && f.frameType != RESPONSE_BODY ==> OwnFrame(id, f);
    hide *;
    ChunkFramesCarryBody(id, hop.chunks);
    EndIsEnd(id, hop.end);
    ThreeParts(Output(id, hop), head, ChunkFrames(id, hop.chunks), EndFrames(id, hop.end), f);
  }

  lemma {:induction false} OutputCarriesBody(id: Id, hop: Hop)
    ensures forall f | f in Output(id, hop) :: f.id == id && (f.frameType == RESPONSE_BODY ==> DataFrame(id, f))
    ensures BodyOf(Output(id, hop)) == if hop.Responds? then Concat(hop.chunks) else []
  {
    if hop.Responds? {
      HeadHasNoBody(id, hop.head);
      OutputJoins(id, hop);
      hide Output, BodyOf, Concat, ChunkFrames, EndFrames, DataFrame;
      ResponseCarriesBody(id, [Frame(RESPONSE_HEAD, id, hop.head)], hop.chunks, hop.end);
      forall f | f in Output(id, hop) ensures OwnFrame(id, f) { ResponseFrames(id, hop, f); }
    }
  }

  lemma {:induction false} OutputCompletes(id: Id, head: Octets, chunks: seq<Octets>, end: BodyEnd)
    requires end.NoTrailers? || end.Trailers?
    ensures Complete(Output(id, Responds(head, chunks, end)))
  {
    hide ChunkFrames;
    var data, last := ChunkFrames(id, chunks), EndFrames(id, end);
    var fs := Output(id, Responds(head, chunks, end));
    assert fs[1..] == data + last;
    ChunkFramesCarryBody(id, chunks);
    EndIsEnd(id, end);
    DataThenEnd(data, last);
  }

  lemma {:induction false} OutputBreaks(id: Id, head: Octets, chunks: seq<Octets>, end: BodyEnd)
    requires end.DataFails? || end.TrailersFail?
    ensures var fs := Output(id, Responds(head, chunks, end)); Broken(fs) && !Complete(fs)
  {
    hide ChunkFrames, Complete;
    var data, last := ChunkFrames(id, chunks), EndFrames(id, end);
    var fs, whole := Output(id, Responds(head, chunks, end)), Output(id, Responds(head, chunks, NoTrailers));
    OutputCompletes(id, head, chunks, NoTrailers);
    assert fs[..|fs| - 1] == [Frame(RESPONSE_HEAD, id, head)] + data == whole[..|fs| - 1];
    ChunkFramesCarryBody(id, chunks);
    ErrorIsNoEnd(data, last[0]);
    assert fs[1..] == data + last && last == [last[0]];
    NotCompleteTail(fs, data + last);
  }

  lemma {:induction false} NotCompleteTail(fs: seq<Frame>, tail: seq<Frame>)
    requires fs != [] && fs[1..] == tail && !BodyThenEnd(tail)
    ensures !Complete(fs)
  {
  }

  /** HEAD BODY* [TRAILERS] END, or a proper prefix of that and one ERROR; the data frames carry the body received. */
  lemma {:induction false} OutputIsWellFormed(id: Id, hop: Hop)
    ensures Complete(Output(id, hop)) || Broken(Output(id, hop))
    ensures forall f | f in Output(id, hop) :: f.id == id && (f.frameType == RESPONSE_BODY ==> DataFrame(id, f))
    ensures BodyOf(Output(id, hop)) == if hop.Responds? then Concat(hop.chunks) else []
    ensures Complete(Output(id, hop)) <==> hop.Responds? && (hop.end.NoTrailers? || hop.end.Trailers?)
  {
    OutputCarriesBody(id, hop);
    match hop {
      case FailsEarly(error) =>
        OutputCompletes(id, [], [], NoTrailers);
        var whole := Output(id, Responds([], [], NoTrailers));
        assert Output(id, hop)[..0] == whole[..0];
      case Responds(head, chunks, end) =>
        hide Complete, Broken, Output;
        if end.NoTrailers? || end.Trailers? {
          OutputCompletes(id, head, chunks, end);
        } else {
          OutputBreaks(id, head, chunks, end);
        }
    }
  }

  /** What went wrong with a hop, if anything did. */
  function Failure(hop: Hop): Option<Octets> {
    if hop.FailsEarly? then Some(hop.error)
    else if hop.end.DataFails? || hop.end.TrailersFail? then Some(hop.end.error)
    else None
  }

  /** Head, trailers and error carry what the hop received, each exactly if it received it; the end is empty. */
  lemma {:induction false} PayloadsAreExact(id: Id, hop: Hop, f: Frame)
    ensures f in Output(id, hop) && f.frameType == RESPONSE_HEAD <==>
              hop.Responds? && f == Frame(RESPONSE_HEAD, id, hop.head)
    ensures f in Output(id, hop) && f.frameType == RESPONSE_TRAILERS <==>
              hop.Responds? && hop.end.Trailers? && f == Frame(RESPONSE_TRAILERS, id, hop.end.payload)
    ensures f in Output(id, hop) && f.frameType == ERROR <==>
              Failure(hop).Some? && f == Frame(ERROR, id, Failure(hop).value)
    ensures f in Output(id, hop) && f.frameType == RESPONSE_END <==>
              Failure(hop).None? && f == Frame(RESPONSE_END, id, [])
  {
    if hop.Responds? {
      ChunkFramesCarryBody(id, hop.chunks);
      hide ChunkFrames;
    }
  }

  lemma {:induction false} ErrorIsNoEnd(data: seq<Frame>, error: Frame)
    requires (forall f | f in data :: f.frameType == RESPONSE_BODY) && error.frameType == ERROR
    ensures !BodyThenEnd(data + [error])
  {
    if data != [] {
      assert (data + [error])[1..] == data[1..] + [error];
      ErrorIsNoEnd(data[1..], error);
    }
  }

  predicate FitsTheWire(hop: Hop) {
    match hop
    case FailsEarly(error) => |error| <= MAX_PAYLOAD_BYTES
    case Responds(head, _, end) =>
      |head| <= MAX_PAYLOAD_BYTES &&
      match end
      case DataFails(e) => |e| <= MAX_PAYLOAD_BYTES
      case TrailersFail(e) => |e| <= MAX_PAYLOAD_BYTES
      case NoTrailers => true
      case Trailers(payload) => |payload| <= MAX_PAYLOAD_BYTES
  }

  /** Through the codec: what a hop writes is read back unchanged, and a cut yields the frames complete before it. */
  lemma {:induction false} OutputReadsBack(id: Id, hop: Hop, cut: nat)
    requires FitsTheWire(hop) && cut <= |EncodeAll(Output(id, hop))|
    ensures ReadAll(EncodeAll(Output(id, hop))) == (Output(id, hop), CleanEnd)
    ensures ReadAll(EncodeAll(Output(id, hop))[..cut]).0 == Output(id, hop)[..WholeBefore(Output(id, hop), cut)]
  {
    hide ReadFrame, ReadAll, EncodeAll;
    var fs := Output(id, hop);
    OutputIsWellFormed(id, hop);
    forall f | f in fs ensures Readable(f) {
      if hop.Responds? && f in ChunkFrames(id, hop.chunks) { ChunkFramesCarryBody(id, hop.chunks); }
    }
    EncodedFramesReadBack(fs);
    CutStreamYieldsWholeFrames(fs, cut);
  }
}
