/** When the decoder's events depend on the stream alone, and when they depend on its chunking. */
module InputChunking {
  import opened Wrappers
  import opened Utf16
  import opened InputKeys
  import opened InputDecoder
  import opened TextSearch

  function Concat(chunks: seq<Text>): Text {
    if chunks == [] then [] else chunks[0] + Concat(chunks[1..])
  }

  /** The feeds of `chunks`, one after the other, from a given decoder state. */
  function Feeds(b: Text, paste: bool, chunks: seq<Text>): Outcome
    decreases |chunks|
  {
    if chunks == [] then Outcome([], b, paste)
    else
      var o := Parse(b + chunks[0], paste, false);
      After(o.events, Feeds(o.buffer, o.paste, chunks[1..]))
  }

  /** No chunk boundary tears a surrogate pair: what a streaming UTF-8 decoder hands over. */
  predicate WholeCharacters(chunks: seq<Text>) {
    chunks != [] ==> !SplitsPair(chunks[0], Concat(chunks[1..])) && WholeCharacters(chunks[1..])
  }

  ghost predicate Chunking(chunks: seq<Text>, stream: Text) {
    Concat(chunks) == stream && WholeCharacters(chunks)
  }

  /** A fresh decoder reports the same for every way of cutting the stream. */
  ghost predicate ChunkIndependent(stream: Text) {
    forall chunks | Chunking(chunks, stream) :: Feeds([], false, chunks) == Parse(stream, false, false)
  }

  /** Dropped controls, bare or after Esc: text that leaves no trace however it is cut. */
  predicate Hushed(t: Text) {
    t == [] ||
    (Silent(t[0]) && Hushed(t[1..])) ||
    (t[0] == ESC && |t| > 1 && Silent(t[1]) && Hushed(t[2..]))
  }

  /** A CSI prefix that has not seen its final byte. */
  predicate Unfinished(b: Text) {
    |b| >= 2 && b[0] == ESC && b[1] == LEFT_BRACKET && FinalIndex(b, 2) == |b|
  }

  /** The first place past MAX_SEQUENCE units where a chunk may end. */
  function FirstCut(b: Text): nat
    requires |b| > MAX_SEQUENCE
  {
    if SplitsPair(b[..65], b[65..]) then 66 else 65
  }

  /**
   * No chunk boundary can make the decoder give up on a CSI sequence that the whole stream completes:
   * every sequence has its final byte within 65 units, and a sequence that never ends is either short
   * or followed by hushed text only.
   */
  predicate Tame(b: Text, paste: bool)
    decreases |b|
  {
    if b == [] then true
    else if !paste && Unfinished(b) then |b| <= MAX_SEQUENCE || Hushed(b[FirstCut(b)..])
    else
      match Step(b, paste, false)
      case Wait(_) => true
      case Consume(n, _, paste') =>
        (!paste && b[0] == ESC && |b| > 1 && b[1] == LEFT_BRACKET ==> n <= MAX_SEQUENCE + 1) && Tame(b[n..], paste')
  }

  /** Parsing `b` ends by giving up on an over-long CSI prefix. */
  predicate Drops(b: Text, paste: bool)
    decreases |b|
  {
    b != [] &&
    match Step(b, paste, false)
    case Wait(_) => !paste && Unfinished(b) && |b| > MAX_SEQUENCE
    case Consume(n, _, paste') => Drops(b[n..], paste')
  }

  // Appending to the buffer

  lemma {:induction false} FinalIndexAppend(b: Text, c: Text)
    requires |b| >= 2 && FinalIndex(b, 2) < |b|
    ensures FinalIndex(b + c, 2) == FinalIndex(b, 2)
  {
    var s, final := b + c, FinalIndex(b, 2);
    assert Final(s[final]);
    assert forall k | 2 <= k < final :: s[k] == b[k];
  }

  /** A complete head is decoded alike when more text follows. */
  lemma {:induction false} StepAppend(b: Text, c: Text, paste: bool)
    requires b != [] && !SplitsPair(b, c)
    requires Step(b, paste, false).Consume?
    ensures Step(b + c, paste, false) == Step(b, paste, false)
  {
    var s := b + c;
    if paste {
      IndexOfAppend(b, c, PASTE_END);
    } else if b[0] != ESC {
      var n := CharLength(b, 0);
      assert CharLength(s, 0) == n && s[..n] == b[..n];
    } else if b[1] == LEFT_BRACKET {
      var final := FinalIndex(b, 2);
      FinalIndexAppend(b, c);
      assert s[2..final] == b[2..final];
    } else if b[1] != CAPITAL_O && b[1] != ESC {
      var n := CharLength(b, 1);
      assert CharLength(s, 1) == n && s[1..1 + n] == b[1..1 + n];
    }
  }

  /** What a waiting head keeps. */
  lemma {:induction false} StepWaits(b: Text, paste: bool)
    requires b != []
    ensures paste ==> var end := IndexOf(b, PASTE_END, 0);
                      Step(b, true, false) ==
                      if end == |b| then Wait(Tail(b, PASTE_END)) else Consume(end + 6, None, false)
    ensures !paste && Step(b, false, false).Wait? ==>
              Step(b, false, false).kept == if Unfinished(b) && |b| > MAX_SEQUENCE then [] else b
    ensures |b| > 1 && b[0] == ESC && b[1] == LEFT_BRACKET ==>
              if Unfinished(b) then Step(b, false, false).Wait?
              else Step(b, false, false).Consume? && Step(b, false, false).count == FinalIndex(b, 2) + 1
  {
  }

  lemma {:induction false} AfterAssociates(xs: seq<Event>, ys: seq<Event>, o: Outcome)
    ensures After(xs, After(ys, o)) == After(xs + ys, o)
  {
    assert xs + (ys + o.events) == (xs + ys) + o.events;
  }

  /** Unless the first part is given up, parsing in two parts is parsing at once. */
  lemma {:induction false} ParseAppend(b: Text, c: Text, paste: bool)
    requires !SplitsPair(b, c) && !Drops(b, paste)
    ensures var o := Parse(b, paste, false);
            Parse(b + c, paste, false) == After(o.events, Parse(o.buffer + c, o.paste, false))
    decreases |b|
  {
    hide Step;
    var s := b + c;
    if b == [] {
      assert s == c;
      assert [] + Parse(c, paste, false).events == Parse(c, paste, false).events;
    } else {
      var step := Step(b, paste, false);
      StepWaits(b, paste);
      match step {
        case Consume(n, event, paste') =>
          StepAppend(b, c, paste);
          assert s[n..] == b[n..] + c;
          ParseAppend(b[n..], c, paste');
          var o := Parse(b[n..], paste', false);
          AfterAssociates(Emitted(event), o.events, Parse(o.buffer + c, o.paste, false));
        case Wait(kept) =>
          assert [] + Parse(kept + c, paste, false).events == Parse(kept + c, paste, false).events;
          if paste { PasteAppend(b, c); }
      }
    }
  }

  lemma {:induction false} PasteAppend(b: Text, c: Text)
    requires b != [] && IndexOf(b, PASTE_END, 0) == |b|
    ensures Parse(b + c, true, false) == Parse(Tail(b, PASTE_END) + c, true, false)
  {
    hide Step, Parse;
    var s, t := b + c, Tail(b, PASTE_END) + c;
    TailSuffices(b, c, PASTE_END);
    TailComposes(b, c, PASTE_END);
    SamePasteResult(s, t);
  }

  lemma {:induction false} SamePasteResult(s: Text, t: Text)
    requires |t| <= |s| && s[|s| - |t|..] == t
    requires IndexOf(s, PASTE_END, 0) == |s| - |t| + IndexOf(t, PASTE_END, 0)
    requires Tail(s, PASTE_END) == Tail(t, PASTE_END)
    ensures Parse(s, true, false) == Parse(t, true, false)
  {
    hide Step, Parse;
    ParsePaste(s);
    ParsePaste(t);
    var j := IndexOf(t, PASTE_END, 0);
    if j < |t| { assert s[|s| - |t| + j + 6..] == t[j + 6..]; }
  }

  /** Parsing inside a paste: up to the terminator nothing but the tail matters. */
  lemma {:induction false} ParsePaste(b: Text)
    ensures var end := IndexOf(b, PASTE_END, 0);
            Parse(b, true, false) ==
            if end == |b| then Outcome([], Tail(b, PASTE_END), true) else Parse(b[end + 6..], false, false)
  {
    hide Step;
    if b != [] {
      var step := Step(b, true, false);
      StepWaits(b, true);
      if step.Consume? {
        var o := Parse(b[step.count..], false, false);
        assert After([], o) == o by { assert [] + o.events == o.events; }
      }
    }
  }

  // Feeding a tame stream

  /** What is left in the buffer is the end of what was read, and stays put until more arrives. */
  lemma {:induction false} ParseSettles(b: Text, paste: bool)
    ensures var o := Parse(b, paste, false);
            && |o.buffer| <= |b| && b[|b| - |o.buffer|..] == o.buffer
            && Parse(o.buffer, o.paste, false) == Outcome([], o.buffer, o.paste)
    decreases |b|
  {
    hide Step;
    if b != [] {
      var step := Step(b, paste, false);
      StepWaits(b, paste);
      if step.Consume? {
        ParseSettles(b[step.count..], step.paste);
        var o := Parse(b[step.count..], step.paste, false);
        assert b[step.count..][|b| - step.count - |o.buffer|..] == b[|b| - |o.buffer|..];
      } else if paste {
        TailSettles(b);
      }
    }
  }

  lemma {:induction false} TailSettles(b: Text)
    ensures Parse(Tail(b, PASTE_END), true, false) == Outcome([], Tail(b, PASTE_END), true)
  {
    hide Step, Parse;
    TailOfTail(b, PASTE_END);
    ParsePaste(Tail(b, PASTE_END));
  }

  lemma {:induction false} TameAppend(b: Text, c: Text, paste: bool)
    requires !SplitsPair(b, c) && !Drops(b, paste) && Tame(b + c, paste)
    ensures var o := Parse(b, paste, false); Tame(o.buffer + c, o.paste)
    decreases |b|
  {
    hide Step;
    var s := b + c;
    if b == [] {
      assert s == c;
    } else {
      var step := Step(b, paste, false);
      StepWaits(b, paste);
      match step {
        case Consume(n, event, paste') =>
          StepAppend(b, c, paste);
          StepWaits(s, paste);
          assert s[n..] == b[n..] + c;
          TameAppend(b[n..], c, paste');
        case Wait(kept) =>
          if paste { TamePaste(b, c); }
      }
    }
  }

  lemma {:induction false} TameInPaste(b: Text)
    ensures var end := IndexOf(b, PASTE_END, 0);
            Tame(b, true) <==> end == |b| || Tame(b[end + 6..], false)
  {
    hide Step;
    if b != [] { StepWaits(b, true); }
  }

  lemma {:induction false} TamePaste(b: Text, c: Text)
    requires b != [] && IndexOf(b, PASTE_END, 0) == |b| && Tame(b + c, true)
    ensures Tame(Tail(b, PASTE_END) + c, true)
  {
    hide Step, Tame, IndexOf, Tail;
    var keep := Tail(b, PASTE_END);
    var s, t := b + c, keep + c;
    TailSuffices(b, c, PASTE_END);
    var j := IndexOf(t, PASTE_END, 0);
    TameInPaste(s);
    TameInPaste(t);
    if j < |t| { assert s[|b| - |keep| + j + 6..] == t[j + 6..]; }
  }

  lemma {:induction false} HushedSuffix(t: Text, k: nat)
    requires Hushed(t) && k <= |t|
    ensures Hushed(t[k..])
  {
    if k > 0 {
      if Silent(t[0]) {
        HushedSuffix(t[1..], k - 1);
        assert t[1..][k - 1..] == t[k..];
      } else if k == 1 {
        assert t[1..][1..] == t[2..];
      } else {
        HushedSuffix(t[2..], k - 2);
        assert t[2..][k - 2..] == t[k..];
      }
    }
  }

  lemma {:induction false} HushedIsMute(t: Text)
    requires Hushed(t)
    ensures Parse(t, false, false) == Outcome([], [], false) && Tame(t, false)
    decreases |t|
  {
    if t != [] {
      if Silent(t[0]) { HushedIsMute(t[1..]); } else { HushedIsMute(t[2..]); }
    }
  }

  /** In a tame stream only mute text can follow the point where a prefix is given up. */
  lemma {:induction false} DropIsHarmless(b: Text, c: Text, paste: bool)
    requires Drops(b, paste) && !SplitsPair(b, c) && Tame(b + c, paste)
    ensures Parse(b + c, paste, false) == Parse(b, paste, false)
    ensures Parse(b, paste, false).buffer == [] && !Parse(b, paste, false).paste
    ensures Hushed(c)
    decreases |b|
  {
    hide Step;
    var step := Step(b, paste, false);
    StepWaits(b, paste);
    if step.Consume? {
      StepAppend(b, c, paste);
      StepWaits(b + c, paste);
      assert (b + c)[step.count..] == b[step.count..] + c;
      DropIsHarmless(b[step.count..], c, step.paste);
    } else {
      GivenUpForGood(b, c);
      StepWaits(b + c, false);
      HushedAfterCut(b, c);
    }
  }

  lemma {:induction false} HushedAfterCut(b: Text, c: Text)
    requires |b| > MAX_SEQUENCE && !SplitsPair(b, c) && Hushed((b + c)[FirstCut(b + c)..])
    ensures Hushed(c)
  {
    var s, cut := b + c, FirstCut(b + c);
    assert s[..65] == b[..65] && (|b| == 65 ==> s[65..] == c && b[..65] == b);
    HushedSuffix(s[cut..], |b| - cut);
    assert s[cut..][|b| - cut..] == c;
  }

  lemma {:induction false} GivenUpForGood(b: Text, c: Text)
    requires Unfinished(b) && |b| > MAX_SEQUENCE && Tame(b + c, false)
    ensures Unfinished(b + c)
  {
    var s := b + c;
    assert forall k | 2 <= k < |b| :: s[k] == b[k];
    assert FinalIndex(s, 2) >= |b|;
  }

  lemma {:induction false} FeedsTame(b: Text, paste: bool, chunks: seq<Text>)
    requires Parse(b, paste, false) == Outcome([], b, paste)
    requires WholeCharacters(chunks) && !SplitsPair(b, Concat(chunks))
    requires Tame(b + Concat(chunks), paste)
    ensures Feeds(b, paste, chunks) == Parse(b + Concat(chunks), paste, false)
    decreases |chunks|
  {
    hide Step, Parse, Tame;
    if chunks == [] {
      assert b + [] == b;
    } else {
      var x, rest := b + chunks[0], Concat(chunks[1..]);
      assert b + Concat(chunks) == x + rest;
      var o := Parse(x, paste, false);
      TameSplit(x, rest, paste);
      FeedsTame(o.buffer, o.paste, chunks[1..]);
    }
  }

  /** One feed of a tame stream: the rest stays tame and what it yields completes the whole. */
  lemma {:induction false} TameSplit(x: Text, rest: Text, paste: bool)
    requires !SplitsPair(x, rest) && Tame(x + rest, paste)
    ensures var o := Parse(x, paste, false);
            && Parse(o.buffer, o.paste, false) == Outcome([], o.buffer, o.paste)
            && !SplitsPair(o.buffer, rest) && Tame(o.buffer + rest, o.paste)
            && Parse(x + rest, paste, false) == After(o.events, Parse(o.buffer + rest, o.paste, false))
  {
    hide Step, Parse, Tame, Drops;
    var o := Parse(x, paste, false);
    ParseSettles(x, paste);
    if Drops(x, paste) {
      DropIsHarmless(x, rest, paste);
      HushedIsMute(rest);
      assert [] + rest == rest && o.events + [] == o.events;
    } else {
      ParseAppend(x, rest, paste);
      TameAppend(x, rest, paste);
    }
  }

  // Telling an untamed stream from its cut

  function TwoFeeds(s: Text, paste: bool, k: nat): Outcome
    requires k <= |s|
  {
    var o := Parse(s[..k], paste, false);
    After(o.events, Parse(o.buffer + s[k..], o.paste, false))
  }

  /** A head decoded from the whole text is decoded alike from a part that goes past it. */
  lemma {:induction false} StepShrink(x: Text, y: Text, paste: bool)
    requires x != [] && !SplitsPair(x, y)
    requires Step(x + y, paste, false).Consume? && Step(x + y, paste, false).count < |x|
    ensures Step(x, paste, false) == Step(x + y, paste, false)
  {
    var s := x + y;
    if paste {
      AtPrefix(x, y, PASTE_END, IndexOf(s, PASTE_END, 0));
    } else if x[0] == ESC && x[1] == LEFT_BRACKET {
      var final := FinalIndex(s, 2);
      assert x[final] == s[final];
    }
    StepAppend(x, y, paste);
  }

  lemma {:induction false} UnhushedSpeaks(t: Text)
    requires !Hushed(t) && forall k | 0 <= k < |t| :: !Final(t[k])
    ensures Parse(t, false, false) != Outcome([], [], false)
    decreases |t|
  {
    var step := Step(t, false, false);
    if step.Consume? && step.event.None? { UnhushedSpeaks(t[step.count..]); }
  }

  lemma {:induction false} ParsePlainUnit(u: CodeUnit, t: Text)
    requires 0x20 < u < 0x7F
    ensures Parse([u] + t, false, false) ==
            After([Key(Printed([u]), false, false, false)], Parse(t, false, false))
  {
    var s := [u] + t;
    assert CharLength(s, 0) == 1 && s[..1] == [u] && s[1..] == t;
  }
}
