/** The version order both update feeds compare with. */
module CalVer {
  import opened Wrappers

  /** A valid version: dot-separated numbers, and the number of a beta. */
  datatype Version = Version(base: seq<nat>, beta: Option<nat>)

  function Digit(base: seq<nat>, i: nat): nat { if i < |base| then base[i] else 0 }

  function MaxLength(a: Version, b: Version): nat { if |a.base| < |b.base| then |b.base| else |a.base| }

  /** On equal bases a beta sorts below the release, and betas by number. */
  function CompareBetas(a: Option<nat>, b: Option<nat>): int {
    if a.None? && b.None? then 0
    else if a.None? then 1
    else if b.None? then -1
    else a.value - b.value
  }

  /** The first difference among segments `from` to `n`, or that of the betas. */
  function CompareFrom(a: Version, b: Version, from: nat, n: nat): int
    decreases n - from
  {
    if from >= n then CompareBetas(a.beta, b.beta)
    else if Digit(a.base, from) != Digit(b.base, from) then Digit(a.base, from) - Digit(b.base, from)
    else CompareFrom(a, b, from + 1, n)
  }

  function Compare(a: Version, b: Version): int { CompareFrom(a, b, 0, MaxLength(a, b)) }

  method CompareCalVer(a: Version, b: Version) returns (diff: int)
    ensures diff == Compare(a, b)
  {
    var n := if |a.base| < |b.base| then |b.base| else |a.base|;
    for i := 0 to n
      invariant Compare(a, b) == CompareFrom(a, b, i, n)
    {
      var left: int, right: int := Digit(a.base, i), Digit(b.base, i);
      diff := left - right;
      if diff != 0 { return; }
    }
    if a.beta.None? && b.beta.None? { return 0; }
    if a.beta.None? { return 1; }
    if b.beta.None? { return -1; }
    return a.beta.value - b.beta.value;
  }

  /** Missing segments count as zero, however many are compared. */
  lemma {:induction false} ZerosDoNotMatter(a: Version, b: Version, from: nat, n: nat)
    requires MaxLength(a, b) <= n
    ensures CompareFrom(a, b, from, n) == CompareFrom(a, b, from, MaxLength(a, b))
    decreases n - from
  {
    if from < n {
      ZerosDoNotMatter(a, b, from + 1, n);
      if from >= MaxLength(a, b) { assert CompareFrom(a, b, from, n) == CompareFrom(a, b, from + 1, n); }
    }
  }

  lemma {:induction false} FlippedFrom(a: Version, b: Version, from: nat, n: nat)
    ensures CompareFrom(a, b, from, n) == -CompareFrom(b, a, from, n)
    decreases n - from
  {
    if from < n { FlippedFrom(a, b, from + 1, n); }
  }

  /** Swapping the versions flips the sign. */
  lemma {:induction false} SignAntisymmetric(a: Version, b: Version)
    ensures Compare(a, b) == -Compare(b, a)
  {
    FlippedFrom(a, b, 0, MaxLength(a, b));
  }

  lemma {:induction false} EqualFrom(a: Version, b: Version, from: nat, n: nat)
    ensures CompareFrom(a, b, from, n) == 0 <==>
              (forall i | from <= i < n :: Digit(a.base, i) == Digit(b.base, i)) && a.beta == b.beta
    decreases n - from
  {
    if from < n { EqualFrom(a, b, from + 1, n); }
  }

  /** Zero exactly for equal betas and bases equal up to trailing zeros. */
  lemma {:induction false} ZeroIsEquality(a: Version, b: Version)
    ensures Compare(a, b) == 0 <==> a.beta == b.beta && forall i: nat :: Digit(a.base, i) == Digit(b.base, i)
  {
    EqualFrom(a, b, 0, MaxLength(a, b));
  }

  lemma {:induction false} TransitiveFrom(a: Version, b: Version, c: Version, from: nat, n: nat)
    requires CompareFrom(a, b, from, n) <= 0 && CompareFrom(b, c, from, n) <= 0
    ensures CompareFrom(a, c, from, n) <= 0
    ensures CompareFrom(a, c, from, n) == 0 ==> CompareFrom(a, b, from, n) == 0 && CompareFrom(b, c, from, n) == 0
    decreases n - from
  {
    if from < n && Digit(a.base, from) == Digit(b.base, from) == Digit(c.base, from) {
      TransitiveFrom(a, b, c, from + 1, n);
    }
  }

  /** The order is transitive, and strict if either step is. */
  lemma {:induction false} Transitive(a: Version, b: Version, c: Version)
    requires Compare(a, b) <= 0 && Compare(b, c) <= 0
    ensures Compare(a, c) <= 0 && (Compare(a, c) == 0 ==> Compare(a, b) == 0 && Compare(b, c) == 0)
  {
    var n := |a.base| + |b.base| + |c.base|;
    ZerosDoNotMatter(a, b, 0, n);
    ZerosDoNotMatter(b, c, 0, n);
    ZerosDoNotMatter(a, c, 0, n);
    TransitiveFrom(a, b, c, 0, n);
  }

  /** Strictly newer. */
  predicate Newer(a: Version, b: Version) { Compare(a, b) > 0 }

  // What the order is, segment by segment

  predicate SameUpTo(a: Version, b: Version, k: nat) { forall i: nat | i < k :: Digit(a.base, i) == Digit(b.base, i) }

  predicate SameBase(a: Version, b: Version) {
    forall i: nat | i < MaxLength(a, b) :: Digit(a.base, i) == Digit(b.base, i)
  }

  lemma {:induction false} DifferenceFrom(a: Version, b: Version, k: nat, from: nat, n: nat)
    requires from <= k < n && SameUpTo(a, b, k) && Digit(a.base, k) != Digit(b.base, k)
    ensures CompareFrom(a, b, from, n) == Digit(a.base, k) - Digit(b.base, k)
    decreases k - from
  {
    if from < k { DifferenceFrom(a, b, k, from + 1, n); }
  }

  lemma {:induction false} NoDifferenceFrom(a: Version, b: Version, from: nat, n: nat)
    requires SameBase(a, b) && n == MaxLength(a, b)
    ensures CompareFrom(a, b, from, n) == CompareBetas(a.beta, b.beta)
    decreases n - from
  {
    if from < n { NoDifferenceFrom(a, b, from + 1, n); }
  }

  /** The first segment that differs decides, whatever follows it. */
  lemma {:induction false} FirstDifferenceDecides(a: Version, b: Version, k: nat)
    requires SameUpTo(a, b, k) && Digit(a.base, k) != Digit(b.base, k)
    ensures Newer(a, b) <==> Digit(a.base, k) > Digit(b.base, k)
  {
    DifferenceFrom(a, b, k, 0, MaxLength(a, b));
  }

  /** On the same base a release is newer than every beta, and betas go by number. */
  lemma {:induction false} BetasDecide(a: Version, b: Version)
    requires SameBase(a, b)
    ensures Newer(a, b) <==> b.beta.Some? && (a.beta.None? || a.beta.value > b.beta.value)
  {
    NoDifferenceFrom(a, b, 0, MaxLength(a, b));
  }

  lemma {:induction false} DifferOrNot(a: Version, b: Version, from: nat)
    requires SameUpTo(a, b, from)
    ensures SameBase(a, b) || exists k: nat :: SameUpTo(a, b, k) && Digit(a.base, k) != Digit(b.base, k)
    decreases MaxLength(a, b) - from
  {
    if from < MaxLength(a, b) && Digit(a.base, from) == Digit(b.base, from) {
      DifferOrNot(a, b, from + 1);
    }
  }

  /** That is the whole order: newer by the first segment that differs or, on the same base, by the betas. */
  lemma {:induction false} NewerExactly(a: Version, b: Version)
    ensures Newer(a, b) <==>
              (exists k: nat :: SameUpTo(a, b, k) && Digit(a.base, k) > Digit(b.base, k))
              || (SameBase(a, b) && b.beta.Some? && (a.beta.None? || a.beta.value > b.beta.value))
  {
    hide Newer, SameBase;
    DifferOrNot(a, b, 0);
    if SameBase(a, b) {
      BetasDecide(a, b);
      NothingDiffers(a, b);
    } else {
      var k: nat :| SameUpTo(a, b, k) && Digit(a.base, k) != Digit(b.base, k);
      FirstDifferenceDecides(a, b, k);
      forall other: nat | SameUpTo(a, b, other) && Digit(a.base, other) > Digit(b.base, other) ensures Newer(a, b) {
        FirstDifferenceDecides(a, b, other);
      }
    }
  }

  /** Segments are compared from the left, and missing ones count as zero. */
  lemma {:induction false} LeftmostDecides(a: Version, b: Version, k: nat)
    requires k < |a.base| && k <= |b.base| && a.base[..k] == b.base[..k]
    ensures k < |b.base| && a.base[k] > b.base[k] ==> Newer(a, b)
    ensures k < |b.base| && a.base[k] < b.base[k] ==> Newer(b, a)
    ensures k == |b.base| && a.base[k] > 0 ==> Newer(a, b)
  {
    hide Newer;
    forall i: nat | i < k ensures Digit(a.base, i) == Digit(b.base, i) {
      assert a.base[..k][i] == b.base[..k][i];
    }
    if Digit(a.base, k) != Digit(b.base, k) {
      FirstDifferenceDecides(a, b, k);
      FirstDifferenceDecides(b, a, k);
    }
  }

  lemma {:induction false} NothingDiffers(a: Version, b: Version)
    requires SameBase(a, b)
    ensures forall k: nat :: Digit(a.base, k) == Digit(b.base, k)
  {
  }

  lemma {:induction false} NewerTransitive(a: Version, b: Version, c: Version)
    requires Newer(a, b) && Compare(b, c) >= 0
    ensures Newer(a, c)
  {
    SignAntisymmetric(a, b);
    SignAntisymmetric(b, c);
    SignAntisymmetric(a, c);
    Transitive(c, b, a);
  }

  /** Every beta of a release lies strictly between the releases around it. */
  lemma {:induction false} BetaComesBefore(base: seq<nat>, beta: nat, older: Version)
    requires Newer(Version(base, None), older)
    requires exists i: nat :: Digit(older.base, i) != Digit(base, i)
    ensures Newer(Version(base, None), Version(base, Some(beta))) && Newer(Version(base, Some(beta)), older)
  {
    var release, early := Version(base, None), Version(base, Some(beta));
    var n := MaxLength(release, older);
    assert Compare(release, early) == 1 by { EqualBases(release, early, 0); }
    var i: nat :| Digit(older.base, i) != Digit(base, i);
    assert i < n;
    BetaOnlyBreaksTies(base, beta, older, 0, n);
  }

  lemma {:induction false} EqualBases(a: Version, b: Version, from: nat)
    requires a.base == b.base
    ensures CompareFrom(a, b, from, |a.base|) == CompareBetas(a.beta, b.beta)
    decreases |a.base| - from
  {
    if from < |a.base| { EqualBases(a, b, from + 1); }
  }

  lemma {:induction false} BetaOnlyBreaksTies(base: seq<nat>, beta: nat, other: Version, from: nat, n: nat)
    requires exists i | from <= i < n :: Digit(base, i) != Digit(other.base, i)
    ensures CompareFrom(Version(base, None), other, from, n) == CompareFrom(Version(base, Some(beta)), other, from, n)
    decreases n - from
  {
    if from < n && Digit(base, from) == Digit(other.base, from) {
      BetaOnlyBreaksTies(base, beta, other, from + 1, n);
    }
  }
}
