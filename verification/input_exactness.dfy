/** The exact condition for chunk independence, and the paste that never replays. */
module InputExactness {
  import opened Wrappers
  import opened Utf16
  import opened InputKeys
  import opened TextSearch
  import opened InputDecoder
  import opened InputChunking

  // A terminator inside text read outside a paste

  lemma {:induction false} ParseUnits(units: Text, t: Text)
    requires forall k | 0 <= k < |units| :: 0x20 < units[k] < 0x7F
    ensures |Parse(units + t, false, false).events| == |units| + |Parse(t, false, false).events|
  {
    hide Step, Parse;
    if units == [] {
      assert units + t == t;
    } else {
      ParsePlainUnit(units[0], units[1..] + t);
      assert units + t == [units[0]] + (units[1..] + t);
      ParseUnits(units[1..], t);
    }
  }

  /** Reading a text inside a paste never yields more events than reading it outside one. */
  lemma {:induction false} PasteIsQuieter(t: Text)
    ensures |Parse(t, true, false).events| <= |Parse(t, false, false).events|
    decreases |t|
  {
    hide Step;
    var i := IndexOf(t, PASTE_END, 0);
    ParsePaste(t);
    if i < |t| {
      HeadBeforePasteEnd(t);
      var step := Step(t, false, false);
      if step.count <= i {
        PasteIsQuieter(t[step.count..]);
        SamePasteEnd(t, step.count);
      } else {
        ParseAstride(t, i, step.count);
      }
    }
  }

  lemma {:induction false} SamePasteEnd(t: Text, n: nat)
    requires n <= IndexOf(t, PASTE_END, 0) < |t|
    ensures Parse(t[n..], true, false).events == Parse(t, true, false).events
  {
    hide Step, Parse;
    var i := IndexOf(t, PASTE_END, 0);
    ParsePaste(t);
    ParsePaste(t[n..]);
    IndexOfRest(t, n);
    assert t[n..][i - n + 6..] == t[i + 6..];
  }

  /** The rest of a terminator whose head was taken by something else is read as plain keys. */
  lemma {:induction false} ParseAstride(t: Text, i: nat, n: nat)
    requires At(t, PASTE_END, i) && i < n <= i + 6
    ensures |Parse(t[i + 6..], false, false).events| <= |Parse(t[n..], false, false).events|
  {
    hide Step, Parse;
    var units := t[n..i + 6];
    assert t[n..] == units + t[i + 6..];
    forall k | 0 <= k < |units| ensures 0x20 < units[k] < 0x7F {
      assert units[k] == t[i..i + 6][n - i + k];
      PlainTerminator(n - i + k);
    }
    ParseUnits(units, t[i + 6..]);
  }

  lemma {:induction false} PlainTerminator(k: nat)
    requires 0 < k < 6
    ensures 0x20 < PASTE_END[k] < 0x7F
  {
  }

  lemma {:induction false} IndexOfRest(t: Text, n: nat)
    requires n <= IndexOf(t, PASTE_END, 0)
    ensures IndexOf(t[n..], PASTE_END, 0) == IndexOf(t, PASTE_END, 0) - n
  {
    forall j: nat | j <= |t| - n ensures At(t[n..], PASTE_END, j) <==> At(t, PASTE_END, n + j) {
      AtSuffix(t, PASTE_END, n, j);
    }
    IndexOfShift(t, PASTE_END, n);
  }

  lemma {:induction false} PasteEndUnits(t: Text, i: nat)
    requires At(t, PASTE_END, i)
    ensures i + 6 <= |t| && t[i] == 0x1B && t[i + 1] == 0x5B && t[i + 2] == 0x32
    ensures t[i + 3] == 0x30 && t[i + 4] == 0x31 && t[i + 5] == 0x7E
  {
    var units := t[i..i + 6];
    assert t[i] == units[0] && t[i + 1] == units[1] && t[i + 2] == units[2];
    assert t[i + 3] == units[3] && t[i + 4] == units[4] && t[i + 5] == units[5];
  }

  /** A head decoded before a terminator ends before it, just past its Esc or its bracket, or is it. */
  lemma {:induction false} HeadBeforePasteEnd(t: Text)
    requires IndexOf(t, PASTE_END, 0) < |t|
    ensures var i := IndexOf(t, PASTE_END, 0);
            var step := Step(t, false, false);
            && step.Consume? && step.count <= i + 6 && (step.paste ==> step.count <= i)
  {
    hide DecodeCsi, IndexOf, At, CharacterKey, CsiNamed;
    var i := IndexOf(t, PASTE_END, 0);
    PasteEndUnits(t, i);
    if t[0] == ESC && t[1] == LEFT_BRACKET {
      var final := FinalIndex(t, 2);
      if i == 0 {
        assert final == 5 && t[2..5] == [0x32, 0x30, 0x31];
        TerminatorIsNoOpener();
      } else if i >= 2 {
        assert final <= i + 1;
      }
    }
  }

  lemma {:induction false} TerminatorIsNoOpener()
    ensures DecodeCsi([0x32, 0x30, 0x31], TILDE) == CsiDecode(None, false)
    ensures DecodeCsi([0x32, 0x30, 0x30], TILDE) == CsiDecode(None, true)
  {
    SplitPlain([0x32, 0x30, 0x31]);
    SplitPlain([0x32, 0x30, 0x30]);
  }

  // An untamed stream is told from its cut

  lemma {:induction false} AfterInjective(xs: seq<Event>, o: Outcome, o': Outcome)
    ensures After(xs, o) == After(xs, o') ==> o == o'
  {
    if xs + o.events == xs + o'.events {
      assert o.events == (xs + o.events)[|xs|..] == o'.events;
    }
  }

  /** A sequence whose final byte comes too late: cut before it, the final byte is read as a key. */
  lemma {:induction false} LateFinalShows(s: Text)
    requires |s| > 2 && s[0] == ESC && s[1] == LEFT_BRACKET
    requires MAX_SEQUENCE < FinalIndex(s, 2) < |s|
    ensures TwoFeeds(s, false, FinalIndex(s, 2)) != Parse(s, false, false)
  {
    hide Step, Parse;
    var f := FinalIndex(s, 2);
    var csi := DecodeCsi(s[2..f], s[f]);
    var rest := s[f + 1..];
    CutBeforeFinal(s, f);
    PasteIsQuieter(rest);
    NoPrintedKey(csi, s[f], Parse(rest, csi.startPaste, false), Parse(rest, false, false));
    WholeSequence(s, f);
  }

  lemma {:induction false} WholeSequence(s: Text, f: nat)
    requires |s| > 2 && s[0] == ESC && s[1] == LEFT_BRACKET && FinalIndex(s, 2) == f < |s|
    ensures var csi := DecodeCsi(s[2..f], s[f]);
            Parse(s, false, false) == After(Emitted(csi.event), Parse(s[f + 1..], csi.startPaste, false))
  {
    assert Step(s, false, false).Consume?;
  }

  lemma {:induction false} CutBeforeFinal(s: Text, f: nat)
    requires |s| > 2 && s[0] == ESC && s[1] == LEFT_BRACKET
    requires MAX_SEQUENCE < FinalIndex(s, 2) == f < |s|
    ensures TwoFeeds(s, false, f) ==
            After([Key(Printed([s[f]]), false, false, false)], Parse(s[f + 1..], false, false))
  {
    hide Step, Parse;
    PrefixGivenUp(s, f);
    assert [] + s[f..] == [s[f]] + s[f + 1..];
    ParsePlainUnit(s[f], s[f + 1..]);
    var o := Parse([s[f]] + s[f + 1..], false, false);
    assert [] + o.events == o.events;
  }

  lemma {:induction false} NoPrintedKey(csi: CsiDecode, final: CodeUnit, whole: Outcome, rest: Outcome)
    requires csi.event.Some? && csi.event.value.Key? ==> csi.event.value.key.Named?
    requires csi.startPaste ==> csi.event.None?
    requires if csi.startPaste then |whole.events| <= |rest.events| else whole == rest
    ensures After(Emitted(csi.event), whole) != After([Key(Printed([final]), false, false, false)], rest)
  {
    var key := Key(Printed([final]), false, false, false);
    if csi.event.Some? {
      assert ([csi.event.value] + whole.events)[0] == csi.event.value;
      assert ([key] + rest.events)[0] == key;
    } else {
      assert |[] + whole.events| < |[key] + rest.events|;
    }
  }

  lemma {:induction false} PrefixGivenUp(s: Text, k: nat)
    requires |s| > 2 && s[0] == ESC && s[1] == LEFT_BRACKET
    requires MAX_SEQUENCE < k <= FinalIndex(s, 2)
    ensures Parse(s[..k], false, false) == Outcome([], [], false)
  {
    assert forall i | 2 <= i < k :: s[..k][i] == s[i];
    assert FinalIndex(s[..k], 2) == k;
  }

  lemma {:induction false} UnendedShows(s: Text)
    requires Unfinished(s) && |s| > MAX_SEQUENCE && !Hushed(s[FirstCut(s)..])
    ensures var k := FirstCut(s);
            k < |s| && !SplitsPair(s[..k], s[k..]) && TwoFeeds(s, false, k) != Parse(s, false, false)
  {
    hide Step, Parse;
    var k := FirstCut(s);
    var rest := s[k..];
    assert s[65..][0] == s[65] == s[k - 1] || k == 65;
    PrefixGivenUp(s, k);
    PrefixGivenUp(s, |s|);
    assert s[..|s|] == s;
    UnhushedSpeaks(rest);
    assert [] + rest == rest;
    var o := Parse(rest, false, false);
    assert TwoFeeds(s, false, k) == o by { assert [] + o.events == o.events; }
  }

  /** Where to cut an untamed text so that the two feeds give the difference away. */
  lemma {:induction false} TellingCut(s: Text, paste: bool) returns (k: nat)
    requires !Tame(s, paste)
    ensures 0 < k < |s| && !SplitsPair(s[..k], s[k..])
    ensures TwoFeeds(s, paste, k) != Parse(s, paste, false)
    decreases |s|
  {
    hide Step, Parse;
    if !paste && Unfinished(s) {
      k := FirstCut(s);
      UnendedShows(s);
    } else {
      var step := Step(s, paste, false);
      StepWaits(s, paste);
      if !paste && s[0] == ESC && |s| > 1 && s[1] == LEFT_BRACKET && step.count > MAX_SEQUENCE + 1 {
        k := FinalIndex(s, 2);
        LateFinalShows(s);
      } else {
        var n, rest := step.count, s[step.count..];
        var k' := TellingCut(rest, step.paste);
        k := n + k';
        CutAfterHead(s, paste, k');
      }
    }
  }

  lemma {:induction false} CutAfterHead(s: Text, paste: bool, k: nat)
    requires s != [] && Step(s, paste, false).Consume?
    requires var step := Step(s, paste, false);
             && 0 < k < |s| - step.count && !SplitsPair(s[step.count..][..k], s[step.count..][k..])
             && TwoFeeds(s[step.count..], step.paste, k) != Parse(s[step.count..], step.paste, false)
    ensures var n := Step(s, paste, false).count;
            && !SplitsPair(s[..n + k], s[n + k..])
            && TwoFeeds(s, paste, n + k) != Parse(s, paste, false)
  {
    hide Step;
    var step := Step(s, paste, false);
    var n, rest := step.count, s[step.count..];
    var x, y := s[..n + k], s[n + k..];
    assert s == x + y && rest[k..] == y && x[n..] == rest[..k];
    assert x[|x| - 1] == rest[..k][k - 1];
    StepShrink(x, y, paste);
    var o := Parse(rest[..k], step.paste, false);
    var tail := Parse(o.buffer + y, o.paste, false);
    AfterAssociates(Emitted(step.event), o.events, tail);
    AfterInjective(Emitted(step.event), TwoFeeds(rest, step.paste, k), Parse(rest, step.paste, false));
  }

  lemma {:induction false} TwoChunks(s: Text, k: nat)
    requires k <= |s| && !SplitsPair(s[..k], s[k..])
    ensures Chunking([s[..k], s[k..]], s)
    ensures Feeds([], false, [s[..k], s[k..]]) == TwoFeeds(s, false, k)
  {
    hide Step, Parse;
    var chunks: seq<Text> := [s[..k], s[k..]];
    assert chunks[1..] == [s[k..]];
    assert Concat(chunks[1..]) == s[k..] + [] == s[k..];
    assert Concat(chunks) == s[..k] + s[k..] == s;
    assert WholeCharacters(chunks[1..]);
    assert [] + s[..k] == s[..k];
    var o := Parse(s[..k], false, false);
    var tail := Parse(o.buffer + s[k..], o.paste, false);
    assert tail.events + [] == tail.events;
    assert Feeds(o.buffer, o.paste, chunks[1..]) == tail;
  }

  /**
   * The decoder's events and final state are the same for every chunking of a stream
   * exactly when no sequence in it can outgrow MAX_SEQUENCE before its final byte comes.
   */
  lemma {:induction false} ChunkIndependenceExactly(stream: Text)
    ensures ChunkIndependent(stream) <==> Tame(stream, false)
  {
    hide Step, Tame;
    if Tame(stream, false) {
      forall chunks | Chunking(chunks, stream)
        ensures Feeds([], false, chunks) == Parse(stream, false, false)
      {
        assert [] + stream == stream;
        FeedsTame([], false, chunks);
      }
    } else {
      var k := TellingCut(stream, false);
      TwoChunks(stream, k);
    }
  }

  /** ESC [ 0…0 A of 66 units: the arrow key when it comes whole, a literal A when its last unit comes alone. */
  lemma {:induction false} OverlongArrowDependsOnChunks()
    ensures !ChunkIndependent([ESC, LEFT_BRACKET] + seq(63, _ => 0x30) + [0x41])
  {
    var s: Text := [ESC, LEFT_BRACKET] + seq(63, _ => 0x30) + [0x41];
    assert Final(s[65]);
    assert FinalIndex(s, 2) == 65;
    ChunkIndependenceExactly(s);
  }

  // Pastes

  /** The terminator has no border, so a body without it cannot complete it early. */
  lemma {:induction false} BodyThenPasteEnd(body: Text, rest: Text)
    requires IndexOf(body, PASTE_END, 0) == |body|
    ensures IndexOf(body + PASTE_END + rest, PASTE_END, 0) == |body|
  {
    var s := body + PASTE_END + rest;
    assert s[|body|..|body| + 6] == PASTE_END;
    assert At(s, PASTE_END, |body|);
    forall i: nat | i < |body| ensures !At(s, PASTE_END, i) {
      if At(s, PASTE_END, i) {
        if i + 6 <= |body| {
          assert s == body + (PASTE_END + rest);
          AtPrefix(body, PASTE_END + rest, PASTE_END, i);
        } else {
          assert s[|body|] == s[i..i + 6][|body| - i];
          PlainTerminator(|body| - i);
        }
      }
    }
  }

  function Pasted(body: Text): Text { PASTE_START + body + PASTE_END }

  lemma {:induction false} ParseOpener(t: Text)
    ensures Parse(PASTE_START + t, false, false) == Parse(t, true, false)
    ensures Tame(PASTE_START + t, false) <==> Tame(t, true)
  {
    hide Step;
    var s := PASTE_START + t;
    StepOpener(t);
    StepWaits(s, false);
    assert s[6..] == t;
    var o := Parse(t, true, false);
    assert [] + o.events == o.events;
  }

  lemma {:induction false} StepOpener(t: Text)
    ensures Step(PASTE_START + t, false, false) == Consume(6, None, true)
  {
    var s := PASTE_START + t;
    assert s[..6] == PASTE_START;
    assert s[2] == 0x32 && s[3] == 0x30 && s[4] == 0x30 && Final(s[5]);
    assert FinalIndex(s, 2) == 5;
    assert s[2..5] == [0x32, 0x30, 0x30];
    TerminatorIsNoOpener();
  }

  lemma {:induction false} PasteParsesAway(body: Text, rest: Text)
    requires IndexOf(body, PASTE_END, 0) == |body|
    ensures Parse(Pasted(body) + rest, false, false) == Parse(rest, false, false)
    ensures Tame(Pasted(body) + rest, false) <==> Tame(rest, false)
  {
    hide Step, Parse, Tame;
    var inner := body + PASTE_END + rest;
    assert Pasted(body) + rest == PASTE_START + inner;
    ParseOpener(inner);
    BodyThenPasteEnd(body, rest);
    ParsePaste(inner);
    TameInPaste(inner);
    assert inner[|body| + 6..] == rest;
  }

  /**
   * However opener, body and terminator are cut, and whatever follows, a paste yields no event
   * and decoding resumes right after the terminator.
   */
  lemma {:induction false} PasteNeverReplays(body: Text, rest: Text, chunks: seq<Text>)
    requires IndexOf(body, PASTE_END, 0) == |body|
    requires Chunking(chunks, Pasted(body) + rest) && Tame(rest, false)
    ensures Feeds([], false, chunks) == Parse(rest, false, false)
  {
    hide Step, Parse, Tame;
    PasteParsesAway(body, rest);
    ChunkIndependenceExactly(Pasted(body) + rest);
  }

  /** Until the terminator has come, a paste of any content in any chunks yields nothing and stays open. */
  lemma {:induction false} OpenPasteIsMute(body: Text, chunks: seq<Text>)
    requires IndexOf(body, PASTE_END, 0) == |body|
    requires Chunking(chunks, PASTE_START + body)
    ensures Feeds([], false, chunks) == Outcome([], Tail(body, PASTE_END), true)
  {
    hide Step, Parse, Tame;
    ParseOpener(body);
    ParsePaste(body);
    TameInPaste(body);
    ChunkIndependenceExactly(PASTE_START + body);
  }
}
