/** The incremental terminal decoder: buffer, paste swallowing, and independence of chunk boundaries. */
module InputDecoder {
  import opened Wrappers
  import opened Utf16
  import opened InputKeys
  import opened TextSearch

  /** ESC [ 2 0 1 ~ */
  const PASTE_END: Text := [0x1B, 0x5B, 0x32, 0x30, 0x31, 0x7E]
  const PASTE_START: Text := [0x1B, 0x5B, 0x32, 0x30, 0x30, 0x7E]

  /** A CSI prefix longer than this is dropped. */
  const MAX_SEQUENCE := 64

  predicate Final(u: CodeUnit) { 0x40 <= u <= 0x7E }

  /** First final byte at or after `from`, or |b|. */
  function FinalIndex(b: Text, from: nat): (r: nat)
    requires from <= |b|
    ensures from <= r <= |b|
    ensures forall k | from <= k < r :: !Final(b[k])
    ensures r < |b| ==> Final(b[r])
    decreases |b| - from
  {
    if from == |b| || Final(b[from]) then from else FinalIndex(b, from + 1)
  }

  /** What the head of the buffer amounts to: nothing yet (and what is kept), or `count` units consumed. */
  datatype Progress = Wait(kept: Text) | Consume(count: nat, event: Option<Event>, paste: bool)

  function Step(b: Text, paste: bool, flush: bool): (r: Progress)
    requires b != []
    ensures r.Consume? ==> 0 < r.count <= |b|
  {
    if paste then
      var end := IndexOf(b, PASTE_END, 0);
      if end == |b| then Wait(Tail(b, PASTE_END)) else Consume(end + 6, None, false)
    else if b[0] != ESC then
      var n := CharLength(b, 0);
      Consume(n, CharacterKey(b[..n], false), false)
    else if |b| == 1 then
      if flush then Consume(1, Some(ESCAPE_KEY), false) else Wait(b)
    else if b[1] == LEFT_BRACKET then
      var final := FinalIndex(b, 2);
      if final < |b| then
        var csi := DecodeCsi(b[2..final], b[final]);
        Consume(final + 1, csi.event, csi.startPaste)
      else if |b| > MAX_SEQUENCE then Wait([])
      else if flush then Consume(1, Some(ESCAPE_KEY), false) else Wait(b)
    else if b[1] == CAPITAL_O then
      if |b| < 3 then
        if flush then Consume(1, Some(ESCAPE_KEY), false) else Wait(b)
      else
        var name := CsiNamed(b[2]);
        Consume(3, if name.Some? then Some(Plain(name.value)) else None, false)
    else if b[1] == ESC then Consume(2, Some(ESCAPE_KEY), false)
    else
      var n := CharLength(b, 1);
      Consume(1 + n, CharacterKey(b[1..1 + n], true), false)
  }

  /** The events one `parse` yields, and the state it leaves. */
  datatype Outcome = Outcome(events: seq<Event>, buffer: Text, paste: bool)

  function Emitted(event: Option<Event>): seq<Event> {
    if event.Some? then [event.value] else []
  }

  function After(events: seq<Event>, o: Outcome): Outcome { o.(events := events + o.events) }

  function Parse(b: Text, paste: bool, flush: bool): Outcome
    decreases |b|
  {
    if b == [] then Outcome([], [], paste)
    else
      match Step(b, paste, flush)
      case Wait(kept) => Outcome([], kept, paste)
      case Consume(n, event, paste') => After(Emitted(event), Parse(b[n..], paste', flush))
  }

  /** The branches of the parse loop, each with its scan. */
  method TakeHead(b: Text, paste: bool, flush: bool) returns (step: Progress)
    requires b != []
    ensures step == Step(b, paste, flush)
  {
    if paste {
      var end := FindPattern(b, PASTE_END);
      if end < |b| { return Consume(end + 6, None, false); }
      var kept := KeepTail(b, PASTE_END);
      return Wait(kept);
    }
    if b[0] != ESC {
      var n := CharLength(b, 0);
      return Consume(n, CharacterKey(b[..n], false), false);
    }
    var dangling := if flush then Consume(1, Some(ESCAPE_KEY), false) else Wait(b);
    if |b| == 1 { return dangling; }
    if b[1] == LEFT_BRACKET {
      var final := IndexOfFinal(b, 2);
      if final == |b| { return if |b| > MAX_SEQUENCE then Wait([]) else dangling; }
      var csi := DecodeCsi(b[2..final], b[final]);
      return Consume(final + 1, csi.event, csi.startPaste);
    }
    if b[1] == CAPITAL_O {
      if |b| < 3 { return dangling; }
      var name := CsiNamed(b[2]);
      return Consume(3, if name.Some? then Some(Plain(name.value)) else None, false);
    }
    if b[1] == ESC { return Consume(2, Some(ESCAPE_KEY), false); }
    var n := CharLength(b, 1);
    return Consume(1 + n, CharacterKey(b[1..1 + n], true), false);
  }

  class Decoder {
    var buffer: Text
    var inPaste: bool

    constructor ()
      ensures buffer == [] && !inPaste
    {
      buffer, inPaste := [], false;
    }

    method ParseBuffer(flush: bool) returns (events: seq<Event>)
      modifies this
      ensures Outcome(events, buffer, inPaste) == Parse(old(buffer), old(inPaste), flush)
    {
      events := [];
      while buffer != []
        invariant After(events, Parse(buffer, inPaste, flush)) == Parse(old(buffer), old(inPaste), flush)
        decreases |buffer|
      {
        ParseStep(events, buffer, inPaste, flush);
        var step := TakeHead(buffer, inPaste, flush);
        match step {
          case Wait(kept) =>
            buffer := kept;
            break;
          case Consume(n, event, paste) =>
            events := events + Emitted(event);
            buffer, inPaste := buffer[n..], paste;
        }
      }
    }

    method Feed(data: Text) returns (events: seq<Event>)
      modifies this
      ensures Outcome(events, buffer, inPaste) == Parse(old(buffer) + data, old(inPaste), false)
    {
      buffer := buffer + data;
      events := ParseBuffer(false);
    }

    /** Silence made the partial sequence literal: nothing stays pending. */
    method FlushPending() returns (events: seq<Event>)
      modifies this
      ensures Outcome(events, buffer, inPaste) == Parse(old(buffer), old(inPaste), true)
      ensures !Pending()
    {
      FlushSettles(buffer, inPaste);
      events := ParseBuffer(true);
    }

    predicate Pending()
      reads this
    {
      buffer != [] && !inPaste
    }
  }

  method IndexOfFinal(b: Text, from: nat) returns (r: nat)
    requires from <= |b|
    ensures r == FinalIndex(b, from)
  {
    r := from;
    while r < |b| && !Final(b[r])
      invariant r <= |b|
      invariant FinalIndex(b, from) == FinalIndex(b, r)
    {
      r := r + 1;
    }
  }

  /** One step of `Parse` with the events before it accumulated. */
  lemma {:induction false} ParseStep(events: seq<Event>, b: Text, paste: bool, flush: bool)
    requires b != []
    ensures var step := Step(b, paste, flush);
            After(events, Parse(b, paste, flush)) ==
            if step.Wait? then Outcome(events, step.kept, paste)
            else After(events + Emitted(step.event), Parse(b[step.count..], step.paste, flush))
  {
    var step := Step(b, paste, flush);
    if step.Consume? {
      var tail := Parse(b[step.count..], step.paste, flush).events;
      assert events + (Emitted(step.event) + tail) == (events + Emitted(step.event)) + tail;
    }
  }

  lemma {:induction false} FlushSettles(b: Text, paste: bool)
    ensures Parse(b, paste, true).buffer != [] ==> Parse(b, paste, true).paste
    decreases |b|
  {
    if b != [] {
      var step := Step(b, paste, true);
      if step.Consume? { FlushSettles(b[step.count..], step.paste); }
    }
  }
}
