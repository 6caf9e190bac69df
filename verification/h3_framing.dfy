/** The helper's frame codec: a 9-byte big-endian header and a payload. */
module H3Framing {
  import opened Bytes

  const HEADER_BYTES := 9
  const MAX_PAYLOAD_BYTES := 16 * 1024 * 1024

  type Id = n: int | 0 <= n < 0x1_0000_0000

  datatype Frame = Frame(frameType: Byte, id: Id, payload: Octets)

  /** What `read_frame` finds at the head of what the reader still holds. */
  datatype Read = Got(frame: Frame, rest: Octets) | CleanEnd | TooLong | Truncated

  /** A stream that ends inside a header reads as a clean end. */
  function ReadFrame(b: Octets): Read {
    if |b| < HEADER_BYTES then CleanEnd
    else
      var length := ReadU32BE(b[5..]);
      if length > MAX_PAYLOAD_BYTES then TooLong
      else if |b| < HEADER_BYTES + length then Truncated
      else Got(Frame(b[0], ReadU32BE(b[1..]), b[HEADER_BYTES..HEADER_BYTES + length]), b[HEADER_BYTES + length..])
  }

  /** `encode_frame`: the length field wraps at 32 bits. */
  function Encode(f: Frame): Octets {
    [f.frameType] + U32BE(f.id) + U32BE(|f.payload| % 0x1_0000_0000) + f.payload
  }

  /** The stdin task: frames until the stream is over, and how it was over. */
  function ReadAll(b: Octets): (seq<Frame>, Read)
    decreases |b|
  {
    match ReadFrame(b)
    case Got(f, rest) => var (fs, end) := ReadAll(rest); ([f] + fs, end)
    case end => ([], end)
  }

  /** A byte stream read from the front. */
  class Reader {
    var remaining: Octets

    constructor (data: Octets)
      ensures remaining == data
    {
      remaining := data;
    }

    /** Fill a buffer of `n` bytes, or fail having consumed what there was. */
    method ReadExact(n: nat) returns (ok: bool, buffer: Octets)
      modifies this
      ensures ok <==> n <= |old(remaining)|
      ensures ok ==> buffer == old(remaining)[..n] && remaining == old(remaining)[n..]
      ensures !ok ==> remaining == []
    {
      if |remaining| < n {
        remaining := [];
        return false, [];
      }
      ok, buffer := true, remaining[..n];
      remaining := remaining[n..];
    }

    method Next() returns (r: Read)
      modifies this
      ensures r == ReadFrame(old(remaining))
      ensures r.Got? ==> remaining == r.rest
    {
      hide ReadU32BE;
      var ok, header := ReadExact(HEADER_BYTES);
      if !ok { return CleanEnd; }
      HeaderFields(old(remaining));
      var length := ReadU32BE(header[5..]);
      if length > MAX_PAYLOAD_BYTES { return TooLong; }
      var got, payload := ReadExact(length);
      if !got { return Truncated; }
      return Got(Frame(header[0], ReadU32BE(header[1..]), payload), remaining);
    }
  }

  lemma {:induction false} HeaderFields(b: Octets)
    requires |b| >= HEADER_BYTES
    ensures ReadU32BE(b[..9][1..]) == ReadU32BE(b[1..]) && ReadU32BE(b[..9][5..]) == ReadU32BE(b[5..])
  {
  }

  predicate Readable(f: Frame) { |f.payload| <= MAX_PAYLOAD_BYTES }

  function EncodeAll(fs: seq<Frame>): Octets {
    if fs == [] then [] else Encode(fs[0]) + EncodeAll(fs[1..])
  }

  /** The wire: the type, the id and the length of the payload, both with the first byte weighing most, the payload. */
  lemma {:induction false} WireIsExact(f: Frame)
    requires Readable(f)
    ensures var wire := Encode(f);
            && |wire| == 9 + |f.payload| && wire[0] == f.frameType && wire[9..] == f.payload
            && f.id == FromBytes(wire[4], wire[3], wire[2], wire[1])
            && |f.payload| == FromBytes(wire[8], wire[7], wire[6], wire[5])
  {
    hide U32BE, FromBytes;
    var id, length := U32BE(f.id), U32BE(|f.payload|);
    FieldIsExact(f.id);
    FieldIsExact(|f.payload|);
    assert Encode(f) == [f.frameType] + id + length + f.payload;
  }

  lemma {:induction false} FieldIsExact(n: Id)
    ensures var b := U32BE(n); n == FromBytes(b[3], b[2], b[1], b[0])
  {
    hide U32BE, FromBytes, ReadU32BE;
    var b := U32BE(n);
    assert b == [b[0], b[1], b[2], b[3]];
    BigEndianExactly(n, b[0], b[1], b[2], b[3]);
  }

  lemma {:induction false} HeaderOf(f: Frame, tail: Octets)
    requires Readable(f)
    ensures var s := Encode(f) + tail;
            |Encode(f)| == 9 + |f.payload| && s[0] == f.frameType &&
            ReadU32BE(s[1..]) == f.id && ReadU32BE(s[5..]) == |f.payload| && s[9..] == f.payload + tail
  {
    hide ReadU32BE, U32BE;
    var s := Encode(f) + tail;
    ReadBack(f.id);
    ReadBack(|f.payload|);
    FirstFourMatter(s[1..]);
    FirstFourMatter(s[5..]);
    var header := [f.frameType] + U32BE(f.id) + U32BE(|f.payload|);
    assert s == header + (f.payload + tail);
    assert s[9..] == f.payload + tail;
    assert s[1..][..4] == U32BE(f.id) && s[5..][..4] == U32BE(|f.payload|);
  }

  lemma {:induction false} ReadEncoded(f: Frame, tail: Octets)
    requires Readable(f)
    ensures ReadFrame(Encode(f) + tail) == Got(f, tail)
  {
    hide ReadU32BE, Encode;
    HeaderOf(f, tail);
    var s := Encode(f) + tail;
    assert s[9..9 + |f.payload|] == s[9..][..|f.payload|];
    assert s[9 + |f.payload|..] == s[9..][|f.payload|..];
  }

  /** A frame cut short: a cut inside the header passes for the end, a cut inside the payload does not. */
  lemma {:induction false} ReadCut(f: Frame, k: nat)
    requires Readable(f) && k < |Encode(f)|
    ensures ReadFrame(Encode(f)[..k]) == if k < HEADER_BYTES then CleanEnd else Truncated
  {
    hide ReadU32BE, Encode;
    if k >= HEADER_BYTES {
      HeaderOf(f, []);
      assert Encode(f) + [] == Encode(f);
      CutHeader(Encode(f), k);
    }
  }

  lemma {:induction false} CutHeader(s: Octets, k: nat)
    requires HEADER_BYTES <= k <= |s|
    ensures ReadU32BE(s[..k][5..]) == ReadU32BE(s[5..])
  {
  }

  /** How many whole frames lie before byte `k` of the encoded stream. */
  function WholeBefore(fs: seq<Frame>, k: nat): (n: nat)
    ensures n <= |fs|
  {
    if fs == [] || k < |Encode(fs[0])| then 0 else 1 + WholeBefore(fs[1..], k - |Encode(fs[0])|)
  }

  lemma {:induction false} EncodeAllSplit(fs: seq<Frame>, n: nat)
    requires n <= |fs|
    ensures EncodeAll(fs) == EncodeAll(fs[..n]) + EncodeAll(fs[n..])
  {
    hide Encode;
    if n > 0 {
      EncodeAllSplit(fs[1..], n - 1);
      assert fs[..n][1..] == fs[1..][..n - 1] && fs[1..][n - 1..] == fs[n..];
    }
  }

  /** `WholeBefore` is the largest count of frames whose encoding fits in `k` bytes. */
  lemma {:induction false} WholeBeforeIsMaximal(fs: seq<Frame>, k: nat)
    ensures var n := WholeBefore(fs, k);
            |EncodeAll(fs[..n])| <= k && (n < |fs| ==> k < |EncodeAll(fs[..n + 1])|)
  {
    hide Encode;
    var n := WholeBefore(fs, k);
    if fs != [] {
      if k < |Encode(fs[0])| {
        assert fs[..1][0] == fs[0];
      } else {
        WholeBeforeIsMaximal(fs[1..], k - |Encode(fs[0])|);
        assert fs[..n][1..] == fs[1..][..n - 1];
        if n < |fs| { assert fs[..n + 1][1..] == fs[1..][..n]; }
      }
    }
  }

  /**
   * A stream of encoded frames cut anywhere yields exactly the frames complete before the cut;
   * it ends cleanly when the cut falls on a boundary or inside a header, and truncated inside a payload.
   */
  lemma {:induction false} CutStreamYieldsWholeFrames(fs: seq<Frame>, k: nat)
    requires forall f | f in fs :: Readable(f)
    requires k <= |EncodeAll(fs)|
    ensures var n := WholeBefore(fs, k);
            var over := k - |EncodeAll(fs[..n])|;
            ReadAll(EncodeAll(fs)[..k]) == (fs[..n], if over < HEADER_BYTES then CleanEnd else Truncated)
  {
    hide ReadFrame, Encode;
    var n := WholeBefore(fs, k);
    WholeBeforeIsMaximal(fs, k);
    var s := EncodeAll(fs)[..k];
    if fs == [] {
      ReadNothing();
    } else if k < |Encode(fs[0])| {
      assert s == Encode(fs[0])[..k];
      ReadCut(fs[0], k);
    } else {
      var rest := k - |Encode(fs[0])|;
      CutStreamYieldsWholeFrames(fs[1..], rest);
      assert s == Encode(fs[0]) + EncodeAll(fs[1..])[..rest];
      ReadEncoded(fs[0], EncodeAll(fs[1..])[..rest]);
      assert fs[..n][1..] == fs[1..][..n - 1] && fs[..n] == [fs[0]] + fs[1..][..n - 1];
    }
  }

  lemma {:induction false} ReadNothing()
    ensures ReadFrame([]) == CleanEnd
  {
  }

  lemma {:induction false} EncodedFramesReadBack(fs: seq<Frame>)
    requires forall f | f in fs :: Readable(f)
    ensures ReadAll(EncodeAll(fs)) == (fs, CleanEnd)
  {
    hide ReadFrame, Encode;
    var k := |EncodeAll(fs)|;
    CutStreamYieldsWholeFrames(fs, k);
    var n := WholeBefore(fs, k);
    WholeBeforeIsMaximal(fs, k);
    assert EncodeAll(fs)[..k] == EncodeAll(fs);
    EncodeAllSplit(fs, n);
    assert n == |fs| by {
      if n < |fs| {
        EncodeAllSplit(fs, n + 1);
      }
    }
    assert fs[..n] == fs;
  }

  /** A payload past the ceiling stops the stream at its header. */
  lemma {:induction false} OverlongPayloadStops(f: Frame, tail: Octets)
    requires MAX_PAYLOAD_BYTES < |f.payload| < 0x1_0000_0000
    ensures ReadAll(Encode(f) + tail) == ([], TooLong)
  {
    var s := Encode(f) + tail;
    ReadBack(|f.payload|);
    assert s[5..][..4] == U32BE(|f.payload|);
  }
}
