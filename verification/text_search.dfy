/** `indexOf`, `endsWith` and the split-terminator tail, for any pattern. */
module TextSearch {
  import opened Utf16

  predicate At(b: Text, pattern: Text, i: nat) {
    i + |pattern| <= |b| && b[i..i + |pattern|] == pattern
  }

  /** `indexOf(pattern, from)`, with |b| for "not found"; the pattern is not empty. */
  function IndexOf(b: Text, pattern: Text, from: nat): (r: nat)
    requires from <= |b|
    ensures from <= r <= |b|
    ensures forall k: nat | from <= k < r :: !At(b, pattern, k)
    ensures r < |b| ==> At(b, pattern, r)
    decreases |b| - from
  {
    if from == |b| || At(b, pattern, from) then from else IndexOf(b, pattern, from + 1)
  }

  predicate EndsWith(b: Text, suffix: Text) {
    |suffix| <= |b| && b[|b| - |suffix|..] == suffix
  }

  /** Length of the longest prefix of `pattern`, at most `most` units, that `b` ends with. */
  function TailLength(b: Text, pattern: Text, most: nat): (r: nat)
    requires most <= |pattern|
    ensures r <= most
    ensures EndsWith(b, pattern[..r])
    ensures forall k | r < k <= most :: !EndsWith(b, pattern[..k])
  {
    if most == 0 || EndsWith(b, pattern[..most]) then most else TailLength(b, pattern, most - 1)
  }

  /** What is kept of a text without the pattern: the tail that could still begin it. */
  function Tail(b: Text, pattern: Text): (t: Text)
    requires pattern != []
    ensures |t| <= |b| && |t| < |pattern| && b[|b| - |t|..] == t == pattern[..|t|]
  {
    pattern[..TailLength(b, pattern, |pattern| - 1)]
  }

  method FindPattern(b: Text, pattern: Text) returns (r: nat)
    ensures r == IndexOf(b, pattern, 0)
  {
    r := 0;
    while r < |b| && !At(b, pattern, r)
      invariant r <= |b|
      invariant IndexOf(b, pattern, 0) == IndexOf(b, pattern, r)
    {
      r := r + 1;
    }
  }

  method KeepTail(b: Text, pattern: Text) returns (keep: Text)
    requires pattern != []
    ensures keep == Tail(b, pattern)
  {
    keep := [];
    for i := |pattern| downto 1
      invariant keep == []
      invariant TailLength(b, pattern, |pattern| - 1) == TailLength(b, pattern, i - 1)
    {
      if EndsWith(b, pattern[..i]) {
        return pattern[..i];
      }
    }
  }

  lemma {:induction false} AtSuffix(s: Text, pattern: Text, d: nat, j: nat)
    requires d <= |s|
    ensures At(s[d..], pattern, j) <==> At(s, pattern, d + j)
  {
    if d + j + |pattern| <= |s| {
      assert s[d..][j..j + |pattern|] == s[d + j..d + j + |pattern|];
    }
  }

  lemma {:induction false} AtPrefix(b: Text, c: Text, pattern: Text, i: nat)
    requires i + |pattern| <= |b|
    ensures At(b + c, pattern, i) <==> At(b, pattern, i)
  {
    assert (b + c)[i..i + |pattern|] == b[i..i + |pattern|];
  }

  lemma {:induction false} IndexOfAppend(b: Text, c: Text, pattern: Text)
    requires pattern != [] && IndexOf(b, pattern, 0) < |b|
    ensures IndexOf(b + c, pattern, 0) == IndexOf(b, pattern, 0)
  {
    var r := IndexOf(b, pattern, 0);
    forall k: nat | k <= r ensures At(b + c, pattern, k) <==> At(b, pattern, k) {
      AtPrefix(b, c, pattern, k);
    }
  }

  /** An occurrence astride the end of `b` begins inside its tail. */
  lemma {:induction false} StraddlingIsInTail(b: Text, c: Text, pattern: Text, i: nat)
    requires pattern != [] && i < |b| < i + |pattern| && At(b + c, pattern, i)
    ensures |b| - i <= |Tail(b, pattern)|
  {
    var k := |b| - i;
    assert b[i..] == (b + c)[i..i + |pattern|][..k] == pattern[..k];
    assert EndsWith(b, pattern[..k]);
  }

  /** The tail of a text without the pattern stands for all of it when more text follows. */
  lemma {:induction false} TailSuffices(b: Text, c: Text, pattern: Text)
    requires pattern != [] && IndexOf(b, pattern, 0) == |b|
    ensures IndexOf(b + c, pattern, 0) == |b| - |Tail(b, pattern)| + IndexOf(Tail(b, pattern) + c, pattern, 0)
    ensures (b + c)[|b| - |Tail(b, pattern)|..] == Tail(b, pattern) + c
  {
    var d := |b| - |Tail(b, pattern)|;
    var s := b + c;
    assert s[d..] == Tail(b, pattern) + c;
    forall j: nat | j <= |s| - d ensures At(s[d..], pattern, j) <==> At(s, pattern, d + j) {
      AtSuffix(s, pattern, d, j);
    }
    forall i: nat | i < d ensures !At(s, pattern, i) {
      if At(s, pattern, i) {
        if i + |pattern| <= |b| { AtPrefix(b, c, pattern, i); } else { StraddlingIsInTail(b, c, pattern, i); }
      }
    }
    IndexOfShift(s, pattern, d);
  }

  lemma {:induction false} IndexOfShift(s: Text, pattern: Text, d: nat)
    requires d <= |s| && forall i: nat | i < d :: !At(s, pattern, i)
    requires forall j: nat | j <= |s| - d :: At(s[d..], pattern, j) <==> At(s, pattern, d + j)
    ensures IndexOf(s, pattern, 0) == d + IndexOf(s[d..], pattern, 0)
  {
    var whole, part := IndexOf(s, pattern, 0), IndexOf(s[d..], pattern, 0);
    assert whole >= d;
    assert d + part < |s| ==> At(s, pattern, d + part);
    assert whole < |s| ==> At(s[d..], pattern, whole - d);
  }

  lemma {:induction false} EndsWithSuffix(b: Text, d: nat, c: Text, suffix: Text)
    requires d <= |b| && |suffix| <= |b| - d + |c|
    ensures EndsWith(b + c, suffix) <==> EndsWith(b[d..] + c, suffix)
  {
    var whole, part := b + c, b[d..] + c;
    assert whole[|whole| - |suffix|..] == part[|part| - |suffix|..];
  }

  lemma {:induction false} EndBoundsTail(b: Text, c: Text, pattern: Text, k: nat)
    requires |c| <= k < |pattern|
    ensures EndsWith(b + c, pattern[..k]) ==> k - |c| <= |Tail(b, pattern)|
  {
    if EndsWith(b + c, pattern[..k]) {
      var m := k - |c|;
      assert b[|b| - m..] == (b + c)[|b + c| - k..][..m] == pattern[..k][..m] == pattern[..m];
      assert EndsWith(b, pattern[..m]);
    }
  }

  /** Keeping only the tail loses nothing of a later tail. */
  lemma {:induction false} TailComposes(b: Text, c: Text, pattern: Text)
    requires pattern != []
    ensures Tail(Tail(b, pattern) + c, pattern) == Tail(b + c, pattern)
  {
    hide EndsWith, TailLength;
    var keep := Tail(b, pattern);
    forall k | 0 <= k < |pattern|
      ensures EndsWith(b + c, pattern[..k]) <==> EndsWith(keep + c, pattern[..k])
    {
      if k <= |keep| + |c| {
        EndsWithSuffix(b, |b| - |keep|, c, pattern[..k]);
      } else {
        EndBoundsTail(b, c, pattern, k);
        EndIsNoLonger(keep + c, pattern[..k]);
      }
    }
    SameTail(b + c, keep + c, pattern);
  }

  lemma {:induction false} EndIsNoLonger(b: Text, suffix: Text)
    requires |suffix| > |b|
    ensures !EndsWith(b, suffix)
  {
  }

  lemma {:induction false} SameTail(a: Text, b: Text, pattern: Text)
    requires pattern != []
    requires forall k | 0 <= k < |pattern| :: EndsWith(a, pattern[..k]) <==> EndsWith(b, pattern[..k])
    ensures Tail(a, pattern) == Tail(b, pattern)
  {
    hide EndsWith, TailLength;
    var m, n := TailLength(a, pattern, |pattern| - 1), TailLength(b, pattern, |pattern| - 1);
    assert EndsWith(b, pattern[..m]) && EndsWith(a, pattern[..n]);
  }

  lemma {:induction false} TailOfTail(b: Text, pattern: Text)
    requires pattern != []
    ensures var t := Tail(b, pattern); Tail(t, pattern) == t && IndexOf(t, pattern, 0) == |t|
  {
    var t := Tail(b, pattern);
    assert t[|t| - |t|..] == pattern[..|t|];
    assert EndsWith(t, pattern[..|t|]);
  }
}
