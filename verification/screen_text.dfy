/** ANSI-aware measuring and clipping. A `char` is one code point and one cell; SGR sequences take none. */
module ScreenText {
  const ESC: char := '\U{1B}'
  const RESET: string := [ESC, '[', '0', 'm']

  predicate ParamChar(c: char) { '0' <= c <= '9' || c == ';' }

  /** Length of the run of parameter characters of `t` from `from` on. */
  function ParamEnd(t: string, from: nat): (r: nat)
    requires from <= |t|
    ensures from <= r <= |t|
    ensures forall k | from <= k < r :: ParamChar(t[k])
    ensures r < |t| ==> !ParamChar(t[r])
    decreases |t| - from
  {
    if from == |t| || !ParamChar(t[from]) then from else ParamEnd(t, from + 1)
  }

  /** Length of the SGR sequence at the head of `t`, or 0. */
  function SgrLength(t: string): (n: nat)
    ensures n <= |t| && (n > 0 ==> n >= 3 && t[0] == ESC)
  {
    if |t| < 2 || t[0] != ESC || t[1] != '[' then 0
    else
      var end := ParamEnd(t, 2);
      if end < |t| && t[end] == 'm' then end + 1 else 0
  }

  /** How much of the text its head takes, and whether it shows. */
  function Head(t: string): (n: nat)
    requires t != ""
    ensures 0 < n <= |t|
  {
    if SgrLength(t) > 0 then SgrLength(t) else 1
  }

  /** Display cells. */
  function Width(t: string): nat {
    if t == "" then 0
    else (if SgrLength(t) > 0 then 0 else 1) + Width(t[Head(t)..])
  }

  /** The text without its SGR sequences. */
  function Strip(t: string): (r: string)
    ensures |r| == Width(t)
  {
    if t == "" then ""
    else if SgrLength(t) > 0 then Strip(t[Head(t)..])
    else t[..1] + Strip(t[Head(t)..])
  }

  predicate Styled(t: string) {
    t != "" && (SgrLength(t) > 0 || Styled(t[Head(t)..]))
  }

  /** Index where cell number `cells` starts, or |t|; sequences before it are left of the cut. */
  function Cut(t: string, cells: nat): (r: nat)
    ensures r <= |t|
  {
    if t == "" then 0
    else if SgrLength(t) > 0 then SgrLength(t) + Cut(t[SgrLength(t)..], cells)
    else if cells == 0 then 0
    else 1 + Cut(t[1..], cells - 1)
  }

  function Max(a: int, b: int): int { if a < b then b else a }

  function Min(a: int, b: int): int { if a < b then a else b }

  /** Clip to `width` cells, with an ellipsis when something is cut and a reset when the text was styled. */
  function Truncated(t: string, width: int, ellipsis: string): string {
    if width <= 0 then ""
    else if Width(t) <= width then t
    else
      var budget := Max(0, width - Width(ellipsis));
      var reset := if Styled(t) then RESET else "";
      if budget == 0 then t[..Cut(t, width)] + reset else t[..Cut(t, budget)] + ellipsis + reset
  }

  // The index loops

  /** Just past the SGR sequence at `index`, or -1. */
  method IsSgrStart(t: string, index: nat) returns (r: int)
    requires index <= |t|
    ensures r == if SgrLength(t[index..]) == 0 then -1 else index + SgrLength(t[index..])
  {
    ghost var tail := t[index..];
    if |t| < index + 2 || t[index] != ESC || t[index + 1] != '[' { return -1; }
    var end := index + 2;
    while end < |t| && t[end] != 'm'
      invariant index + 2 <= end <= |t|
      invariant forall k | index + 2 <= k < end :: t[k] != 'm'
    {
      end := end + 1;
    }
    if end == |t| {
      assert ParamEnd(tail, 2) < |tail| ==> tail[ParamEnd(tail, 2)] == t[index + ParamEnd(tail, 2)];
      return -1;
    }
    assert tail[end - index] == 'm';
    for i := index + 2 to end
      invariant forall k | index + 2 <= k < i :: ParamChar(t[k])
    {
      if !ParamChar(t[i]) {
        assert tail[i - index] == t[i];
        assert ParamEnd(tail, 2) <= i - index && tail[ParamEnd(tail, 2)] == t[index + ParamEnd(tail, 2)];
        return -1;
      }
    }
    assert forall k | 2 <= k < end - index :: tail[k] == t[index + k];
    assert ParamEnd(tail, 2) == end - index;
    r := end + 1;
  }

  /** What one step over the head of `t[i..]` does to each measure. */
  lemma {:induction false} StepAt(t: string, i: nat)
    requires i < |t|
    ensures var n := Head(t[i..]); var sgr := SgrLength(t[i..]) > 0;
            && n == (if sgr then SgrLength(t[i..]) else 1)
            && Width(t[i..]) == (if sgr then 0 else 1) + Width(t[i + n..])
            && Strip(t[i..]) == (if sgr then Strip(t[i + n..]) else t[i..i + 1] + Strip(t[i + n..]))
            && Styled(t[i..]) == (sgr || Styled(t[i + n..]))
  {
    hide SgrLength;
    assert t[i..][Head(t[i..])..] == t[i + Head(t[i..])..];
    assert t[i..][..1] == t[i..i + 1];
  }

  lemma {:induction false} CutStepAt(t: string, i: nat, cells: nat)
    requires i < |t|
    ensures var n := Head(t[i..]);
            Cut(t[i..], cells) == if SgrLength(t[i..]) > 0 then n + Cut(t[i + n..], cells)
                                  else if cells == 0 then 0 else n + Cut(t[i + n..], cells - 1)
  {
    hide SgrLength;
    assert t[i..][Head(t[i..])..] == t[i + Head(t[i..])..];
  }

  method VisibleWidth(t: string) returns (cells: nat)
    ensures cells == Width(t)
  {
    hide SgrLength, Head, Width;
    cells := 0;
    var i := 0;
    assert t[0..] == t;
    while i < |t|
      invariant i <= |t| && cells + Width(t[i..]) == Width(t)
    {
      StepAt(t, i);
      var afterSgr := IsSgrStart(t, i);
      if afterSgr != -1 {
        i := afterSgr;
        continue;
      }
      cells, i := cells + 1, i + 1;
    }
    EmptyMeasures(t[i..]);
  }

  lemma {:induction false} EmptyMeasures(t: string)
    requires |t| == 0
    ensures Width(t) == 0 && Strip(t) == "" && !Styled(t) && Clean(t)
  {
    assert t == "";
  }

  lemma {:induction false} StripStepAt(t: string, i: nat, out: string)
    requires i < |t| && Strip(t) == out + Strip(t[i..])
    ensures var n := SgrLength(t[i..]);
            Strip(t) == if n > 0 then out + Strip(t[i + n..]) else (out + t[i..i + 1]) + Strip(t[i + 1..])
  {
    hide SgrLength, Head, Strip;
    StepAt(t, i);
  }

  method StripSgr(t: string) returns (out: string)
    ensures out == Strip(t)
  {
    hide SgrLength, Head, Strip;
    out := "";
    var i := 0;
    assert t[0..] == t;
    while i < |t|
      invariant i <= |t| && Strip(t) == out + Strip(t[i..])
    {
      StripStepAt(t, i, out);
      var afterSgr := IsSgrStart(t, i);
      if afterSgr != -1 {
        i := afterSgr;
        continue;
      }
      out, i := out + t[i..i + 1], i + 1;
    }
    EmptyMeasures(t[i..]);
  }

  /** Cells [start, end) of a plain text. */
  method SliceCells(t: string, start: nat, end: nat) returns (out: string)
    ensures out == Sliced(t, start, end)
  {
    out := "";
    var i := 0;
    while i < |t| && i < end
      invariant i <= |t| && i <= Max(end, 0)
      invariant out == if start < i then t[start..i] else ""
    {
      if i >= start { out := out + t[i..i + 1]; }
      i := i + 1;
    }
  }

  function Sliced(t: string, start: nat, end: nat): string {
    var stop := if end < |t| then end else |t|;
    if start < stop then t[start..stop] else ""
  }

  method TruncateToWidth(t: string, width: int, ellipsis: string) returns (r: string)
    ensures r == Truncated(t, width, ellipsis)
  {
    hide SgrLength, Head, Width, Styled, Cut, CutSoFar, TruncationSoFar;
    if width <= 0 { return ""; }
    var ellipsisWidth := VisibleWidth(ellipsis);
    var budget := Max(0, width - ellipsisWidth);
    var cells, styled, i := 0, false, 0;
    var cut, hardCut := -1, -1;
    TruncationStarts(t, budget, width);
    while i < |t|
      invariant i <= |t| && TruncationSoFar(t, i, cells, styled, budget, cut, width, hardCut)
    {
      TruncationStep(t, i, cells, styled, budget, cut, width, hardCut);
      var afterSgr := IsSgrStart(t, i);
      if afterSgr != -1 {
        styled, i := true, afterSgr;
        continue;
      }
      if cells == budget && cut == -1 { cut := i; }
      if cells == width && hardCut == -1 { hardCut := i; }
      cells, i := cells + 1, i + 1;
    }
    TruncationEnds(t, cells, styled, budget, cut, width, hardCut);
    if cells <= width { return t; }
    var reset := if styled then RESET else "";
    if budget == 0 { return (if hardCut == -1 then t else t[..hardCut]) + reset; }
    return (if cut == -1 then "" else t[..cut]) + ellipsis + reset;
  }

  /** What the loop knows of the text: its cells, its styling, and where it would be cut for either width. */
  predicate TruncationSoFar(
    t: string, i: nat, cells: nat, styled: bool, budget: nat, cut: int, width: nat, hardCut: int)
    requires i <= |t|
  {
    && cells + Width(t[i..]) == Width(t) && (styled || Styled(t[i..])) == Styled(t)
    && CutSoFar(t, i, cells, budget, cut) && CutSoFar(t, i, cells, width, hardCut)
  }

  lemma {:induction false} TruncationStarts(t: string, budget: nat, width: nat)
    ensures TruncationSoFar(t, 0, 0, false, budget, -1, width, -1)
  {
    hide Width, Styled, CutSoFar;
    assert t[0..] == t;
    CutSoFarStarts(t, budget);
    CutSoFarStarts(t, width);
  }

  lemma {:induction false} TruncationStep(
    t: string, i: nat, cells: nat, styled: bool, budget: nat, cut: int, width: nat, hardCut: int)
    requires i < |t| && TruncationSoFar(t, i, cells, styled, budget, cut, width, hardCut)
    ensures var n := SgrLength(t[i..]);
            n > 0 ==> i + n <= |t| && TruncationSoFar(t, i + n, cells, true, budget, cut, width, hardCut)
    ensures SgrLength(t[i..]) == 0 ==>
              var cut' := if cells == budget && cut == -1 then i else cut;
              var hardCut' := if cells == width && hardCut == -1 then i else hardCut;
              TruncationSoFar(t, i + 1, cells + 1, styled, budget, cut', width, hardCut')
  {
    hide SgrLength, Head, Width, Styled, CutSoFar;
    StepAt(t, i);
    CutSoFarStep(t, i, cells, budget, cut);
    CutSoFarStep(t, i, cells, width, hardCut);
  }

  lemma {:induction false} TruncationEnds(
    t: string, cells: nat, styled: bool, budget: nat, cut: int, width: nat, hardCut: int)
    requires TruncationSoFar(t, |t|, cells, styled, budget, cut, width, hardCut)
    ensures cells == Width(t) && styled == Styled(t)
    ensures budget < cells ==> cut == Cut(t, budget)
    ensures width < cells ==> hardCut == Cut(t, width)
  {
    hide Width, Styled, CutSoFar, Cut;
    EmptyMeasures(t[|t|..]);
    if budget < cells { CutSoFarEnds(t, cells, budget, cut); }
    if width < cells { CutSoFarEnds(t, cells, width, hardCut); }
  }

  /** The loop's record of where cell `limit` starts, after `cells` cells up to index `i`. */
  predicate CutSoFar(t: string, i: nat, cells: nat, limit: nat, cut: int)
    requires i <= |t|
  {
    if cells <= limit then cut == -1 && i + Cut(t[i..], limit - cells) == Cut(t, limit)
    else cut == Cut(t, limit)
  }

  lemma {:induction false} CutSoFarStarts(t: string, limit: nat)
    ensures CutSoFar(t, 0, 0, limit, -1)
  {
    hide Cut;
    assert t[0..] == t;
  }

  lemma {:induction false} CutSoFarEnds(t: string, cells: nat, limit: nat, cut: int)
    requires CutSoFar(t, |t|, cells, limit, cut) && limit < cells
    ensures cut == Cut(t, limit)
  {
    hide Cut;
  }

  lemma {:induction false} CutSoFarStep(t: string, i: nat, cells: nat, limit: nat, cut: int)
    requires i < |t| && CutSoFar(t, i, cells, limit, cut)
    ensures SgrLength(t[i..]) > 0 ==> CutSoFar(t, i + SgrLength(t[i..]), cells, limit, cut)
    ensures SgrLength(t[i..]) == 0 ==>
              CutSoFar(t, i + 1, cells + 1, limit, if cells == limit && cut == -1 then i else cut)
  {
    hide SgrLength, Cut;
    if cells <= limit { CutStepAt(t, i, limit - cells); }
  }

  // Well-formed text, and the laws of measuring it

  /** Every Esc begins a complete SGR sequence. */
  predicate Clean(t: string) {
    t == "" || ((SgrLength(t) > 0 || t[0] != ESC) && Clean(t[Head(t)..]))
  }

  lemma {:induction false} SgrAppend(a: string, b: string)
    requires a != "" && (SgrLength(a) > 0 || a[0] != ESC)
    ensures SgrLength(a + b) == SgrLength(a) && Head(a + b) == Head(a)
    ensures (a + b)[Head(a)..] == a[Head(a)..] + b && (a + b)[..1] == a[..1]
  {
    var t := a + b;
    if SgrLength(a) > 0 {
      var end := ParamEnd(a, 2);
      assert forall k | 2 <= k <= end :: t[k] == a[k];
      assert ParamEnd(t, 2) == end;
    }
  }

  /** Measuring, stripping and cleanliness are additive after a well-formed text. */
  lemma {:induction false} WidthAppend(a: string, b: string)
    requires Clean(a)
    ensures Width(a + b) == Width(a) + Width(b)
    ensures Strip(a + b) == Strip(a) + Strip(b)
    ensures Clean(b) ==> Clean(a + b)
    decreases |a|
  {
    hide SgrLength, Head, Width, Strip, Clean;
    if |a| == 0 {
      EmptyMeasures(a);
      assert a + b == b;
    } else {
      HeadStep(a);
      HeadStep(a + b);
      SgrAppend(a, b);
      WidthAppend(a[Head(a)..], b);
      if SgrLength(a) == 0 {
        assert a[..1] + (Strip(a[Head(a)..]) + Strip(b)) == (a[..1] + Strip(a[Head(a)..])) + Strip(b);
      }
    }
  }

  lemma {:induction false} HeadStep(t: string)
    requires t != ""
    ensures var sgr, rest := SgrLength(t) > 0, t[Head(t)..];
            && Width(t) == (if sgr then 0 else 1) + Width(rest)
            && Strip(t) == (if sgr then Strip(rest) else t[..1] + Strip(rest))
            && (Clean(t) <==> (sgr || t[0] != ESC) && Clean(rest))
  {
    hide SgrLength;
  }

  /** Text without Esc is well-formed, and its width is its length. */
  lemma {:induction false} PlainText(t: string)
    requires ESC !in t
    ensures Clean(t) && Width(t) == |t| && Strip(t) == t && !Styled(t)
  {
    if t != "" {
      PlainText(t[1..]);
      assert t == t[..1] + t[1..];
    }
  }

  lemma {:induction false} StripIsPlain(t: string)
    requires Clean(t)
    ensures ESC !in Strip(t) && |Strip(t)| == Width(t)
    decreases |t|
  {
    if t != "" { StripIsPlain(t[Head(t)..]); }
  }

  lemma {:induction false} ResetIsInvisible()
    ensures Clean(RESET) && Width(RESET) == 0 && Strip(RESET) == ""
  {
    assert ParamEnd(RESET, 3) == 3;
    assert ParamEnd(RESET, 2) == 3;
    assert RESET[4..] == "";
  }

  /** Cutting a well-formed text leaves a well-formed text of exactly the cells left of the cut. */
  lemma {:induction false} CutIsClean(t: string, cells: nat)
    requires Clean(t) && cells <= Width(t)
    ensures var kept := t[..Cut(t, cells)];
            Clean(kept) && Width(kept) == cells && Strip(kept) == Strip(t)[..cells]
    decreases |t|, 1
  {
    hide SgrLength, Head, Width, Strip, Clean, ParamEnd;
    var r := Cut(t, cells);
    if |t| == 0 || (SgrLength(t) == 0 && cells == 0) {
      EmptyMeasures(t[..0]);
      assert Strip(t)[..0] == "";
    } else {
      CutKeepsHead(t, cells);
    }
  }

  lemma {:induction false} PrefixOfAppend(a: string, b: string, n: nat)
    requires |a| <= n <= |a| + |b|
    ensures (a + b)[..n] == a + b[..n - |a|]
  {
  }

  lemma {:induction false} CutKeepsHead(t: string, cells: nat)
    requires Clean(t) && cells <= Width(t) && t != "" && (SgrLength(t) > 0 || cells > 0)
    ensures var kept := t[..Cut(t, cells)];
            Clean(kept) && Width(kept) == cells && Strip(kept) == Strip(t)[..cells]
    decreases |t|, 0
  {
    hide SgrLength, Head, Width, Strip, Clean, ParamEnd;
    var r, head, sgr := Cut(t, cells), Head(t), SgrLength(t) > 0;
    var first, rest, fewer := t[..head], t[head..], if sgr then cells else cells - 1;
    HeadStep(t);
    HeadAlone(t);
    CutIsClean(rest, fewer);
    assert r == head + Cut(rest, fewer) by { CutStepAt(t, 0, cells); assert t[0..] == t; }
    PrefixOfAppend(first, rest, r);
    assert t == first + rest;
    WidthAppend(first, rest[..r - head]);
    PrefixOfAppend(Strip(first), Strip(rest), cells);
  }

  lemma {:induction false} HeadAlone(t: string)
    requires t != "" && (SgrLength(t) > 0 || t[0] != ESC)
    ensures var first := t[..Head(t)];
            |first| > 0 && Clean(first) && Width(first) == (if SgrLength(t) > 0 then 0 else 1) &&
            Strip(first) == if SgrLength(t) > 0 then "" else first
  {
    var first := t[..Head(t)];
    if SgrLength(t) > 0 {
      assert forall k | 2 <= k < |first| :: first[k] == t[k];
      assert ParamEnd(first, 2) == ParamEnd(t, 2);
    } else {
      PlainText(first);
    }
    assert first[|first|..] == "";
  }

  /** A cut text, whatever follows it and whether or not a reset closes it. */
  lemma {:induction false} CutAndClose(t: string, cells: nat, suffix: string)
    requires Clean(t) && Clean(suffix) && cells <= Width(t)
    ensures var closed := t[..Cut(t, cells)] + suffix + (if Styled(t) then RESET else "");
            Clean(closed) && Width(closed) == cells + Width(suffix)
            && Strip(closed) == Strip(t)[..cells] + Strip(suffix)
  {
    ResetIsInvisible();
    EmptyMeasures("");
    hide SgrLength, Head, Width, Strip, Clean, Cut, Styled, ParamEnd;
    var kept := t[..Cut(t, cells)];
    CutIsClean(t, cells);
    WidthAppend(kept, suffix);
    if Styled(t) { WidthAppend(kept + suffix, RESET); } else { WidthAppend(kept + suffix, ""); }
  }

  /**
   * Truncation never exceeds its width, hits it exactly when it cuts, and then shows the leading cells
   * of the text and the ellipsis, or the leading cells alone when the ellipsis leaves no room. A styled text
   * that is cut ends with a reset.
   */
  lemma {:induction false} TruncationIsExact(t: string, width: int, ellipsis: string)
    requires Clean(t) && Clean(ellipsis)
    ensures var r := Truncated(t, width, ellipsis);
            && Clean(r) && Width(r) == Max(0, Min(width, Width(t)))
            && (0 < width && Width(t) <= width ==> r == t)
            && (0 < width < Width(t) ==>
                  Strip(r) == if Width(ellipsis) < width then Strip(t)[..width - Width(ellipsis)] + Strip(ellipsis)
                              else Strip(t)[..width])
            && (0 < width < Width(t) && Styled(t) ==> |RESET| <= |r| && r[|r| - |RESET|..] == RESET)
  {
    hide SgrLength, Head, Width, Strip, Clean, Cut, Styled, ParamEnd;
    EmptyMeasures("");
    if 0 < width < Width(t) {
      var budget := Max(0, width - Width(ellipsis));
      if budget == 0 {
        CutAndClose(t, width, "");
        assert t[..Cut(t, width)] + "" == t[..Cut(t, width)];
      } else {
        CutAndClose(t, budget, ellipsis);
      }
    }
  }
}
