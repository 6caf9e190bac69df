/** Which pane owns the keys, and the modals that take them away. */
module TuiFocus {
  import opened Wrappers
  import opened ScreenLayout

  datatype Modal = HelpModal | PaletteModal

  datatype Focus = Focus(panes: seq<PaneId>, focused: PaneId, modals: seq<Modal>)

  predicate Valid(f: Focus) { f.focused in f.panes }

  function IndexOf(panes: seq<PaneId>, id: PaneId): (i: nat)
    requires id in panes
    ensures i < |panes| && panes[i] == id && forall k | 0 <= k < i :: panes[k] != id
  {
    if panes[0] == id then 0 else 1 + IndexOf(panes[1..], id)
  }

  /** Pane movement is inert while a modal is open. */
  function Moved(f: Focus, step: int): Focus
    requires Valid(f) && -1 <= step <= 1
  {
    if f.modals != [] then f
    else f.(focused := f.panes[(IndexOf(f.panes, f.focused) + step + |f.panes|) % |f.panes|])
  }

  function FocusedOn(f: Focus, id: PaneId): Focus {
    if f.modals != [] || id !in f.panes then f else f.(focused := id)
  }

  /** Digits count from 1. */
  function FocusedDigit(f: Focus, digit: int): Focus {
    if f.modals != [] || !(1 <= digit <= |f.panes|) then f else f.(focused := f.panes[digit - 1])
  }

  function Pushed(f: Focus, m: Modal): Focus { f.(modals := f.modals + [m]) }

  function Popped(f: Focus): Focus {
    if f.modals == [] then f else f.(modals := f.modals[..|f.modals| - 1])
  }

  function Initial(): Focus { Focus(PANE_ORDER, PANE_ORDER[0], []) }

  /** One step around a ring of `n`. */
  function Wrap(k: int, n: nat): (r: int)
    requires -1 <= k <= n && n > 0
    ensures 0 <= r < n
  {
    if k < 0 then n - 1 else if k == n then 0 else k
  }

  lemma {:induction false} ModIsWrap(k: int, n: nat)
    requires -1 <= k <= n && n > 0
    ensures (k + n) % n == Wrap(k, n)
  {
    var q: int := if k < 0 then 0 else if k == n then 2 else 1;
    assert k + n == q * n + Wrap(k, n);
    Remainder(k + n, n, q, Wrap(k, n));
  }

  lemma {:induction false} Remainder(x: int, n: nat, q: int, r: nat)
    requires n > 0 && r < n && x == q * n + r
    ensures x % n == r
  {
    var quotient := x / n;
    assert x == quotient * n + x % n;
    Product(quotient, q, n);
    Product(q, quotient, n);
  }

  lemma {:induction false} Product(a: int, b: int, n: nat)
    ensures a < b ==> a * n + n <= b * n
  {
    if a < b {
      var d := b - a - 1;
      NotNegative(d, n);
      assert b * n == (d + (a + 1)) * n == d * n + (a + 1) * n;
      assert (a + 1) * n == a * n + n;
    }
  }

  lemma {:induction false} NotNegative(d: nat, n: nat)
    ensures d * n >= 0
  {
  }

  lemma {:induction false} MovedTo(f: Focus, step: int)
    requires Valid(f) && f.modals == [] && -1 <= step <= 1
    ensures f.focused in f.panes && Valid(Moved(f, step))
    ensures Moved(f, step) == f.(focused := f.panes[Wrap(IndexOf(f.panes, f.focused) + step, |f.panes|)])
  {
    ModIsWrap(IndexOf(f.panes, f.focused) + step, |f.panes|);
  }

  predicate Distinct(panes: seq<PaneId>) { forall i, j | 0 <= i < j < |panes| :: panes[i] != panes[j] }

  /** Stepping back undoes stepping on, in a ring of distinct panes. */
  lemma {:induction false} PreviousUndoesNext(f: Focus, step: int)
    requires Valid(f) && Distinct(f.panes) && -1 <= step <= 1
    ensures Valid(Moved(f, step)) && Moved(Moved(f, step), -step) == f
  {
    ModalStays(f, step);
    FocusedIsThere(f);
    hide *;
    if f.modals == [] {
      var here := IndexOf(f.panes, f.focused);
      MovedIndex(f, step);
      MovedIndex(Moved(f, step), -step);
      WrapBack(here, step, |f.panes|);
    }
  }

  /** `y` comes right after `x` in the ring. */
  predicate Follows(panes: seq<PaneId>, x: PaneId, y: PaneId) {
    exists i | 0 <= i < |panes| :: panes[i] == x && y == panes[if i + 1 == |panes| then 0 else i + 1]
  }

  /** A step on goes to the pane right after the focused one, the first after the last; a step back the other way. */
  lemma {:induction false} NextIsNeighbour(f: Focus)
    requires Valid(f) && f.modals == []
    ensures var next, previous := Moved(f, 1), Moved(f, -1);
            && next == f.(focused := next.focused) && Follows(f.panes, f.focused, next.focused)
            && previous == f.(focused := previous.focused) && Follows(f.panes, previous.focused, f.focused)
  {
    var here: int, n := IndexOf(f.panes, f.focused), |f.panes|;
    MovedTo(f, 1);
    MovedTo(f, -1);
    hide Moved;
    assert f.panes[here] == f.focused;
    assert f.panes[Wrap(here - 1, n)] == Moved(f, -1).focused;
  }

  /** A step moves the focus by its index and changes nothing else. */
  lemma {:induction false} MovedIndex(f: Focus, step: int)
    requires Valid(f) && f.modals == [] && Distinct(f.panes) && -1 <= step <= 1
    ensures f.focused in f.panes && f.panes[IndexOf(f.panes, f.focused)] == f.focused
    ensures var t, to := Moved(f, step), Wrap(IndexOf(f.panes, f.focused) + step, |f.panes|);
            Valid(t) && t == f.(focused := f.panes[to]) && t.focused in f.panes && IndexOf(f.panes, t.focused) == to
  {
    FocusedIsThere(f);
    MovedTo(f, step);
    hide *;
    IndexOfPane(f.panes, Wrap(IndexOf(f.panes, f.focused) + step, |f.panes|));
  }

  lemma {:induction false} ModalStays(f: Focus, step: int)
    requires Valid(f) && -1 <= step <= 1
    ensures f.modals != [] ==> Moved(f, step) == f
  {
  }

  lemma {:induction false} FocusedIsThere(f: Focus)
    requires Valid(f)
    ensures f.focused in f.panes
  {
  }

  lemma {:induction false} WrapBack(k: nat, step: int, n: nat)
    requires k < n && -1 <= step <= 1
    ensures Wrap(Wrap(k + step, n) - step, n) == k
  {
  }

  lemma {:induction false} IndexOfPane(panes: seq<PaneId>, k: nat)
    requires k < |panes| && Distinct(panes)
    ensures panes[k] in panes && IndexOf(panes, panes[k]) == k
  {
  }

  class FocusRing {
    var panes: seq<PaneId>
    var focused: PaneId
    var modals: seq<Modal>

    ghost function Abstract(): Focus
      reads this
    {
      Focus(panes, focused, modals)
    }

    constructor ()
      ensures Abstract() == Initial()
    {
      panes, focused, modals := PANE_ORDER, PANE_ORDER[0], [];
    }

    method Move(step: int)
      requires Valid(Abstract()) && -1 <= step <= 1
      modifies this
      ensures Abstract() == Moved(old(Abstract()), step)
    {
      if |modals| > 0 { return; }
      var index := 0;
      while panes[index] != focused
        invariant 0 <= index < |panes| && forall k | 0 <= k < index :: panes[k] != focused
        decreases |panes| - index
      {
        index := index + 1;
      }
      focused := panes[(index + step + |panes|) % |panes|];
    }

    method FocusPane(id: PaneId) returns (taken: bool)
      modifies this
      ensures Abstract() == FocusedOn(old(Abstract()), id)
      ensures taken <==> old(modals) == [] && id in panes
    {
      if |modals| > 0 || id !in panes { return false; }
      focused := id;
      return true;
    }

    method FocusDigit(digit: int) returns (taken: bool)
      modifies this
      ensures Abstract() == FocusedDigit(old(Abstract()), digit)
      ensures taken <==> old(modals) == [] && 1 <= digit <= |panes|
    {
      if |modals| > 0 || digit < 1 || digit > |panes| { return false; }
      focused := panes[digit - 1];
      return true;
    }

    method PushModal(m: Modal)
      modifies this
      ensures Abstract() == Pushed(old(Abstract()), m)
    {
      modals := modals + [m];
    }

    method PopModal() returns (m: Option<Modal>)
      modifies this
      ensures Abstract() == Popped(old(Abstract()))
      ensures m == if old(modals) == [] then None else Some(old(modals[|modals| - 1]))
    {
      if |modals| == 0 { return None; }
      m := Some(modals[|modals| - 1]);
      modals := modals[..|modals| - 1];
    }

    /** A new pane order; the focus survives when its pane does. */
    method SetPanes(next: seq<PaneId>)
      requires next != []
      modifies this
      ensures panes == next && modals == old(modals) && Valid(Abstract())
      ensures focused == if old(focused) in next then old(focused) else next[0]
    {
      panes := next;
      if focused !in panes { focused := panes[0]; }
    }
  }
}
