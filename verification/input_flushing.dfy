/** A paste between feeds and silences: flushes cannot replay it, unless one falls inside the opener. */
module InputFlushing {
  import opened Wrappers
  import opened Utf16
  import opened InputKeys
  import opened TextSearch
  import opened InputDecoder
  import opened InputChunking
  import opened InputExactness

  /** What the session does with the decoder: text arrives, or silence flushes whatever is pending. */
  datatype Op = Feed(text: Text) | Silence

  function Do(b: Text, paste: bool, op: Op): Outcome {
    match op
    case Feed(text) => Parse(b + text, paste, false)
    case Silence => if b != [] && !paste then Parse(b, false, true) else Outcome([], b, paste)
  }

  function Mixed(b: Text, paste: bool, ops: seq<Op>): Outcome
    decreases |ops|
  {
    if ops == [] then Outcome([], b, paste)
    else
      var o := Do(b, paste, ops[0]);
      After(o.events, Mixed(o.buffer, o.paste, ops[1..]))
  }

  /** All the text of a run. */
  function Sent(ops: seq<Op>): Text {
    if ops == [] then [] else (if ops[0].Feed? then ops[0].text else []) + Sent(ops[1..])
  }

  /** What is left of a run once its first `n` units have arrived. */
  function Skip(ops: seq<Op>, n: nat): seq<Op> {
    if n == 0 || ops == [] then ops
    else if ops[0].Silence? then Skip(ops[1..], n)
    else if |ops[0].text| <= n then Skip(ops[1..], n - |ops[0].text|)
    else [Feed(ops[0].text[n..])] + ops[1..]
  }

  /** No silence falls after the first but before the last unit of the opener; `at` units have arrived. */
  predicate SparesOpener(ops: seq<Op>, at: nat)
    decreases |ops|
  {
    if ops == [] then true
    else if ops[0].Silence? then !(0 < at < 6) && SparesOpener(ops[1..], at)
    else SparesOpener(ops[1..], at + |ops[0].text|)
  }

  /** What the buffer holds when the first `n` units of a pasted body have been read. */
  function Held(body: Text, n: nat): Text
    requires n < |Pasted(body)|
  {
    var units := Pasted(body)[..n];
    if n < 6 then units else Tail(units[6..], PASTE_END)
  }

  lemma {:induction false} NoEarlyEnd(body: Text, n: nat)
    requires IndexOf(body, PASTE_END, 0) == |body| && n < |body| + 6
    ensures var x := (body + PASTE_END)[..n]; IndexOf(x, PASTE_END, 0) == |x|
  {
    hide IndexOf;
    var whole := body + PASTE_END;
    var x := whole[..n];
    BodyThenPasteEnd(body, []);
    assert body + PASTE_END + [] == whole && x + whole[n..] == whole;
    var i := IndexOf(x, PASTE_END, 0);
    if i < |x| { AtPrefix(x, whole[n..], PASTE_END, i); }
  }

  lemma {:induction false} OpenerWaits(n: nat)
    requires n < 6
    ensures Parse(PASTE_START[..n], false, false) == Outcome([], PASTE_START[..n], false)
  {
    var b := PASTE_START[..n];
    if n > 0 {
      assert b[0] == ESC;
      if n > 1 {
        assert b[1] == LEFT_BRACKET;
        assert forall k | 2 <= k < n :: b[k] == PASTE_START[k] && !Final(b[k]);
        assert FinalIndex(b, 2) == n;
      }
    }
  }

  lemma {:induction false} PastedParts(body: Text, n: nat)
    requires 6 <= n <= |Pasted(body)|
    ensures Pasted(body)[..n] == PASTE_START + Pasted(body)[..n][6..]
    ensures Pasted(body)[..n][6..] == (body + PASTE_END)[..n - 6]
  {
    assert Pasted(body) == PASTE_START + (body + PASTE_END);
  }

  /** The state after the first units of a pasted body. */
  lemma {:induction false} PrefixIsHeld(body: Text, n: nat)
    requires IndexOf(body, PASTE_END, 0) == |body| && n < |Pasted(body)|
    ensures Parse(Pasted(body)[..n], false, false) == Outcome([], Held(body, n), n >= 6)
  {
    hide Parse;
    var units := Pasted(body)[..n];
    if n < 6 {
      assert units == PASTE_START[..n];
      OpenerWaits(n);
    } else {
      PastedParts(body, n);
      ParseOpener(units[6..]);
      NoEarlyEnd(body, n - 6);
      ParsePaste(units[6..]);
    }
  }

  /** What is held stands for all that was read. */
  lemma {:induction false} HeldSuffices(body: Text, n: nat, t: Text)
    requires IndexOf(body, PASTE_END, 0) == |body| && n < |Pasted(body)|
    ensures Parse(Held(body, n) + t, n >= 6, false) == Parse(Pasted(body)[..n] + t, false, false)
  {
    hide Parse;
    if n >= 6 {
      var units := Pasted(body)[..n];
      PastedParts(body, n);
      NoEarlyEnd(body, n - 6);
      assert units + t == PASTE_START + (units[6..] + t);
      ParseOpener(units[6..] + t);
      if n > 6 { PasteAppend(units[6..], t); } else { assert units[6..] == []; }
    }
  }

  lemma {:induction false} FeedInside(body: Text, n: nat, t: Text)
    requires IndexOf(body, PASTE_END, 0) == |body| && n + |t| < |Pasted(body)|
    requires t == Pasted(body)[n..n + |t|]
    ensures Parse(Held(body, n) + t, n >= 6, false) == Outcome([], Held(body, n + |t|), n + |t| >= 6)
  {
    hide Parse, Held;
    HeldSuffices(body, n, t);
    PrefixIsHeld(body, n + |t|);
    assert Pasted(body)[..n] + t == Pasted(body)[..n + |t|];
  }

  lemma {:induction false} FeedPast(body: Text, n: nat, t: Text)
    requires IndexOf(body, PASTE_END, 0) == |body| && n < |Pasted(body)| <= n + |t|
    requires t[..|Pasted(body)| - n] == Pasted(body)[n..]
    ensures Parse(Held(body, n) + t, n >= 6, false) == Parse(t[|Pasted(body)| - n..], false, false)
  {
    hide Parse, Held;
    var rest := t[|Pasted(body)| - n..];
    HeldSuffices(body, n, t);
    assert Pasted(body)[..n] + t == Pasted(body) + rest;
    PasteParsesAway(body, rest);
  }

  lemma {:induction false} MixedFirst(b: Text, paste: bool, ops: seq<Op>)
    requires ops != []
    ensures var o := Do(b, paste, ops[0]);
            Mixed(b, paste, ops) == After(o.events, Mixed(o.buffer, o.paste, ops[1..]))
  {
  }

  lemma {:induction false} SkipFirst(ops: seq<Op>, n: nat)
    requires n > 0 && ops != []
    ensures Skip(ops, n) ==
      if ops[0].Silence? then Skip(ops[1..], n)
      else if |ops[0].text| <= n then Skip(ops[1..], n - |ops[0].text|)
      else [Feed(ops[0].text[n..])] + ops[1..]
  {
  }

  lemma {:induction false} SentFirst(ops: seq<Op>, expected: Text)
    requires expected != [] && expected <= Sent(ops)
    ensures ops != []
    ensures Sent(ops) == if ops[0].Feed? then ops[0].text + Sent(ops[1..]) else Sent(ops[1..])
  {
  }

  lemma {:induction false} FedInside(whole: Text, n: nat, t: Text, rest: Text)
    requires n + |t| <= |whole| && whole[n..] <= t + rest
    ensures t == whole[n..n + |t|] && whole[n + |t|..] <= rest
  {
    assert t == (t + rest)[..|t|] == whole[n..][..|t|];
    assert rest == (t + rest)[|t|..] && whole[n..][|t|..] == whole[n + |t|..];
  }

  lemma {:induction false} FedPast(whole: Text, n: nat, t: Text, rest: Text)
    requires n <= |whole| <= n + |t| && whole[n..] <= t + rest
    ensures t[..|whole| - n] == whole[n..]
  {
    assert t[..|whole| - n] == (t + rest)[..|whole| - n];
  }

  lemma {:induction false} EmptyAtStart(body: Text, n: nat)
    requires n < |Pasted(body)|
    ensures n == 0 ==> Held(body, n) == []
  {
  }

  lemma {:induction false} SkipNothing(ops: seq<Op>)
    ensures Skip(ops, 0) == ops
  {
  }

  lemma {:induction false} QuietFirst(o: Outcome)
    ensures After([], o) == o
  {
    assert [] + o.events == o.events;
  }

  /** What is fed past the terminator is read from a fresh start. */
  lemma {:induction false} TakeUp(t: Text, left: nat, rest: seq<Op>)
    requires left <= |t|
    ensures var o := Parse(t[left..], false, false);
            After(o.events, Mixed(o.buffer, o.paste, rest)) ==
            Mixed([], false, if left == |t| then rest else [Feed(t[left..])] + rest)
  {
    if left == |t| {
      QuietFirst(Mixed([], false, rest));
    } else {
      assert [] + t[left..] == t[left..];
      assert ([Feed(t[left..])] + rest)[1..] == rest;
    }
  }

  lemma {:induction false} SilenceInside(body: Text, ops: seq<Op>, n: nat)
    requires n < |Pasted(body)| && ops != [] && ops[0].Silence? && !(0 < n < 6)
    ensures Mixed(Held(body, n), n >= 6, ops) == Mixed(Held(body, n), n >= 6, ops[1..])
  {
    EmptyAtStart(body, n);
    hide Parse, Pasted, Mixed, Held;
    MixedFirst(Held(body, n), n >= 6, ops);
    QuietFirst(Mixed(Held(body, n), n >= 6, ops[1..]));
  }

  lemma {:induction false} TextInside(body: Text, ops: seq<Op>, n: nat)
    requires IndexOf(body, PASTE_END, 0) == |body| && ops != [] && ops[0].Feed?
    requires n + |ops[0].text| < |Pasted(body)| && ops[0].text == Pasted(body)[n..n + |ops[0].text|]
    ensures var m := n + |ops[0].text|;
            Mixed(Held(body, n), n >= 6, ops) == Mixed(Held(body, m), m >= 6, ops[1..])
  {
    hide Parse, Pasted, Mixed, Held, IndexOf;
    var m := n + |ops[0].text|;
    MixedFirst(Held(body, n), n >= 6, ops);
    FeedInside(body, n, ops[0].text);
    QuietFirst(Mixed(Held(body, m), m >= 6, ops[1..]));
  }

  lemma {:induction false} TextPast(body: Text, ops: seq<Op>, n: nat)
    requires IndexOf(body, PASTE_END, 0) == |body| && ops != [] && ops[0].Feed?
    requires n < |Pasted(body)| <= n + |ops[0].text|
    requires ops[0].text[..|Pasted(body)| - n] == Pasted(body)[n..]
    ensures Mixed(Held(body, n), n >= 6, ops) == Mixed([], false, Skip(ops, |Pasted(body)| - n))
  {
    hide Parse, Pasted, Mixed, Held, IndexOf, Skip;
    var left := |Pasted(body)| - n;
    MixedFirst(Held(body, n), n >= 6, ops);
    FeedPast(body, n, ops[0].text);
    TakeUp(ops[0].text, left, ops[1..]);
    SkipFirst(ops, left);
    SkipNothing(ops[1..]);
  }

  /** From any point inside the paste: nothing is reported until the terminator has been read. */
  lemma {:induction false} PasteWalk(body: Text, ops: seq<Op>, n: nat)
    requires IndexOf(body, PASTE_END, 0) == |body| && n < |Pasted(body)|
    requires Pasted(body)[n..] <= Sent(ops) && SparesOpener(ops, n)
    ensures Mixed(Held(body, n), n >= 6, ops) == Mixed([], false, Skip(ops, |Pasted(body)| - n))
    decreases |ops|
  {
    hide Sent, Pasted, Mixed, Skip, Held, IndexOf;
    SentFirst(ops, Pasted(body)[n..]);
    var left, rest := |Pasted(body)| - n, ops[1..];
    SkipFirst(ops, left);
    if ops[0].Silence? {
      SilenceInside(body, ops, n);
      PasteWalk(body, rest, n);
    } else if |ops[0].text| < left {
      FedInside(Pasted(body), n, ops[0].text, Sent(rest));
      TextInside(body, ops, n);
      PasteWalk(body, rest, n + |ops[0].text|);
    } else {
      FedPast(Pasted(body), n, ops[0].text, Sent(rest));
      TextPast(body, ops, n);
    }
  }

  /**
   * However a paste is cut into feeds, and wherever silence flushes between them but inside the opener: the
   * run goes as if the paste had never been sent.
   */
  lemma {:induction false} FlushesNeverReplay(body: Text, ops: seq<Op>)
    requires IndexOf(body, PASTE_END, 0) == |body|
    requires Pasted(body) <= Sent(ops) && SparesOpener(ops, 0)
    ensures Mixed([], false, ops) == Mixed([], false, Skip(ops, |Pasted(body)|))
  {
    hide Mixed, Skip, SparesOpener, Sent;
    assert Pasted(body)[0..] == Pasted(body) && Held(body, 0) == [];
    PasteWalk(body, ops, 0);
  }

  // Exactly when a paste stays silent

  lemma {:induction false} EscapeFirst(n: nat)
    requires 0 < n < 6
    ensures Parse(PASTE_START[..n], false, true).events != []
  {
    var b := PASTE_START[..n];
    assert b[0] == ESC;
    if n > 1 {
      assert b[1] == LEFT_BRACKET;
      assert forall k | 2 <= k < n :: b[k] == PASTE_START[k] && !Final(b[k]);
      assert FinalIndex(b, 2) == n;
    }
    assert Step(b, false, true) == Consume(1, Some(ESCAPE_KEY), false);
  }

  /** A flush inside the opener reports something at once. */
  lemma {:induction false} FlushShows(body: Text, ops: seq<Op>, n: nat)
    requires 0 < n < 6 && ops != [] && ops[0].Silence?
    ensures Mixed(Held(body, n), n >= 6, ops).events != []
  {
    hide Parse, Mixed;
    assert Held(body, n) == PASTE_START[..n];
    EscapeFirst(n);
    MixedFirst(Held(body, n), n >= 6, ops);
  }

  lemma {:induction false} LaterIsSpared(ops: seq<Op>, at: nat)
    requires at >= 6
    ensures SparesOpener(ops, at)
    decreases |ops|
  {
    if ops != [] { LaterIsSpared(ops[1..], if ops[0].Silence? then at else at + |ops[0].text|); }
  }

  /** What is sent is the rest of `whole` from its unit `n` on, or a part of that, or that and more. */
  predicate Agrees(whole: Text, n: nat, sent: Text)
    requires n <= |whole|
  {
    sent <= whole[n..] || whole[n..] <= sent
  }

  lemma {:induction false} FedSoFar(whole: Text, n: nat, t: Text, rest: Text)
    requires n + |t| <= |whole| && Agrees(whole, n, t + rest)
    ensures t == whole[n..n + |t|] && Agrees(whole, n + |t|, rest)
    ensures t + rest <= whole[n..] ==> rest <= whole[n + |t|..]
  {
    assert t == (t + rest)[..|t|] == whole[n..][..|t|];
    assert rest == (t + rest)[|t|..] && whole[n..][|t|..] == whole[n + |t|..];
  }

  /** So it does however the opener was cut before it, whatever comes later, and whether or not the paste ends. */
  lemma {:induction false} FlushInOpenerShows(body: Text, ops: seq<Op>, n: nat)
    requires IndexOf(body, PASTE_END, 0) == |body| && n < 6
    requires Agrees(Pasted(body), n, Sent(ops)) && !SparesOpener(ops, n)
    ensures Mixed(Held(body, n), n >= 6, ops).events != []
    decreases |ops|
  {
    NotSparedFirst(ops, n);
    hide *;
    SentSplits(ops);
    PastedIsLong(body);
    if ops[0].Silence? {
      if 0 < n {
        FlushShows(body, ops, n);
      } else {
        SilenceInside(body, ops, n);
        FlushInOpenerShows(body, ops[1..], n);
      }
    } else {
      FedSoFar(Pasted(body), n, ops[0].text, Sent(ops[1..]));
      TextInside(body, ops, n);
      FlushInOpenerShows(body, ops[1..], n + |ops[0].text|);
    }
  }

  lemma {:induction false} NotSparedFirst(ops: seq<Op>, at: nat)
    requires !SparesOpener(ops, at)
    ensures ops != []
    ensures if ops[0].Silence? then 0 < at < 6 || !SparesOpener(ops[1..], at)
            else at + |ops[0].text| < 6 && !SparesOpener(ops[1..], at + |ops[0].text|)
  {
    if ops[0].Feed? && at + |ops[0].text| >= 6 { LaterIsSpared(ops[1..], at + |ops[0].text|); }
  }

  lemma {:induction false} SentSplits(ops: seq<Op>)
    requires ops != []
    ensures Sent(ops) == if ops[0].Feed? then ops[0].text + Sent(ops[1..]) else Sent(ops[1..])
  {
  }

  lemma {:induction false} PastedIsLong(body: Text)
    ensures |Pasted(body)| >= 12
  {
  }

  lemma {:induction false} NothingSentIsMute(ops: seq<Op>)
    requires Sent(ops) == []
    ensures Mixed([], false, ops).events == []
    decreases |ops|
  {
    if ops != [] {
      SentSplits(ops);
      assert ops[0].Feed? ==> [] + ops[0].text == [];
      NothingSentIsMute(ops[1..]);
    }
  }

  /** A run that sends no more than the paste reports nothing if it spares the opener. */
  lemma {:induction false} SparedIsMute(body: Text, ops: seq<Op>, n: nat)
    requires IndexOf(body, PASTE_END, 0) == |body| && n < |Pasted(body)|
    requires Sent(ops) <= Pasted(body)[n..] && SparesOpener(ops, n)
    ensures Mixed(Held(body, n), n >= 6, ops).events == []
    decreases |ops|
  {
    hide *;
    MixedNone(Held(body, n), n >= 6);
    if ops != [] {
      SentSplits(ops);
      SparesFirst(ops, n);
      if ops[0].Silence? {
        SilenceInside(body, ops, n);
        SparedIsMute(body, ops[1..], n);
      } else {
        FedNoMore(Pasted(body), n, ops[0].text, Sent(ops[1..]));
        if n + |ops[0].text| < |Pasted(body)| {
          TextInside(body, ops, n);
          SparedIsMute(body, ops[1..], n + |ops[0].text|);
        } else {
          LastTextIsMute(body, ops, n);
        }
      }
    }
  }

  lemma {:induction false} SparesFirst(ops: seq<Op>, at: nat)
    requires ops != [] && SparesOpener(ops, at)
    ensures if ops[0].Silence? then !(0 < at < 6) && SparesOpener(ops[1..], at)
            else SparesOpener(ops[1..], at + |ops[0].text|)
  {
  }

  lemma {:induction false} MixedNone(b: Text, paste: bool)
    ensures Mixed(b, paste, []).events == []
  {
  }

  lemma {:induction false} FedNoMore(whole: Text, n: nat, t: Text, rest: Text)
    requires n <= |whole| && t + rest <= whole[n..]
    ensures n + |t| <= |whole| && t == whole[n..n + |t|] && rest <= whole[n + |t|..]
    ensures n + |t| == |whole| ==> t == whole[n..] && rest == []
  {
    assert |t + rest| <= |whole[n..]|;
    FedSoFar(whole, n, t, rest);
  }

  lemma {:induction false} LastTextIsMute(body: Text, ops: seq<Op>, n: nat)
    requires IndexOf(body, PASTE_END, 0) == |body| && ops != [] && ops[0].Feed?
    requires n < |Pasted(body)| == n + |ops[0].text| && ops[0].text == Pasted(body)[n..] && Sent(ops[1..]) == []
    ensures Mixed(Held(body, n), n >= 6, ops).events == []
  {
    hide Sent, Pasted, Mixed, Held, IndexOf, Skip;
    TextPast(body, ops, n);
    SkipFirst(ops, |ops[0].text|);
    SkipNothing(ops[1..]);
    NothingSentIsMute(ops[1..]);
  }

  /**
   * For every run that sends a paste, or part of one, in any feeds and with any flushes between them: nothing
   * is reported exactly when no flush falls inside the opener.
   */
  lemma {:induction false} MuteExactly(body: Text, ops: seq<Op>)
    requires IndexOf(body, PASTE_END, 0) == |body| && Sent(ops) <= Pasted(body)
    ensures Mixed([], false, ops).events == [] <==> SparesOpener(ops, 0)
  {
    hide Mixed, SparesOpener, Sent;
    assert Pasted(body)[0..] == Pasted(body) && Held(body, 0) == [];
    if SparesOpener(ops, 0) { SparedIsMute(body, ops, 0); } else { FlushInOpenerShows(body, ops, 0); }
  }
}
