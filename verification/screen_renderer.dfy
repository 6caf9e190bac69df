/** The diff renderer, against a renderer that repaints every row of every frame. */
module ScreenRenderer {
  /** Address a row, erase it and write `text` from its first column. Rows never wrap. */
  datatype Put = Put(row: nat, text: string)

  datatype State = State(rows: nat, previous: seq<string>, repaint: bool)

  function Visible(frame: seq<string>, rows: nat): seq<string> {
    if |frame| < rows then frame else frame[..rows]
  }

  /** Whether a render has to write row `i`. */
  predicate Rewrites(s: State, frame: seq<string>, i: nat) {
    var shown := Visible(frame, s.rows);
    if i < |shown| then s.repaint || i >= |s.previous| || s.previous[i] != shown[i]
    else i < s.rows && (s.repaint || i < |s.previous|)
  }

  function RowText(frame: seq<string>, rows: nat, i: nat): string {
    if i < |Visible(frame, rows)| then frame[i] else ""
  }

  /** The writes of one render from row `from` on. */
  function Writes(s: State, frame: seq<string>, from: nat): (out: seq<Put>)
    decreases s.rows - from
  {
    if from >= s.rows then []
    else (if Rewrites(s, frame, from) then [Put(from, RowText(frame, s.rows, from))] else [])
         + Writes(s, frame, from + 1)
  }

  function Rendered(s: State, frame: seq<string>): State {
    State(s.rows, Visible(frame, s.rows), false)
  }

  class Renderer {
    var size: nat
    var previous: seq<string>
    var repaint: bool

    ghost function Abstract(): State
      reads this
    {
      State(size, previous, repaint)
    }

    constructor (rows: nat)
      ensures Abstract() == State(rows, [], true)
    {
      size, previous, repaint := rows, [], true;
    }

    /** Paint a frame; returns what goes out to the terminal, in order. */
    method Render(frame: seq<string>) returns (out: seq<Put>)
      modifies this
      ensures out == Writes(old(Abstract()), frame, 0)
      ensures Abstract() == Rendered(old(Abstract()), frame)
    {
      hide Writes, Rewrites, RowText;
      ghost var s := Abstract();
      var visible := if |frame| < size then |frame| else size;
      assert |Visible(frame, s.rows)| == visible;
      out := [];
      for i := 0 to visible
        invariant Abstract() == s
        invariant out + Writes(s, frame, i) == Writes(s, frame, 0)
      {
        WriteStep(s, frame, i, out);
        VisibleRow(s, frame, i);
        if !repaint && i < |previous| && previous[i] == frame[i] { continue; }
        out := out + [Put(i, frame[i])];
      }
      var stale := if repaint then size else if |previous| < size then |previous| else size;
      var i := visible;
      while i < stale
        invariant visible <= i <= s.rows && Abstract() == s
        invariant out + Writes(s, frame, i) == Writes(s, frame, 0)
      {
        WriteStep(s, frame, i, out);
        StaleRow(s, frame, i);
        out, i := out + [Put(i, "")], i + 1;
      }
      NothingLeft(s, frame, i);
      previous := frame[..visible];
      repaint := false;
    }

    /** New geometry: nothing is known about the terminal any more. */
    method Resize(rows: nat)
      modifies this
      ensures Abstract() == State(rows, old(previous), true)
    {
      size, repaint := rows, true;
    }
  }

  lemma {:induction false} VisibleRow(s: State, frame: seq<string>, i: nat)
    requires i < |Visible(frame, s.rows)|
    ensures RowText(frame, s.rows, i) == frame[i]
    ensures Rewrites(s, frame, i) <==> s.repaint || i >= |s.previous| || s.previous[i] != frame[i]
  {
  }

  lemma {:induction false} StaleRow(s: State, frame: seq<string>, i: nat)
    requires |Visible(frame, s.rows)| <= i < s.rows
    ensures RowText(frame, s.rows, i) == ""
    ensures Rewrites(s, frame, i) <==> s.repaint || i < |s.previous|
  {
  }

  lemma {:induction false} NothingLeft(s: State, frame: seq<string>, i: nat)
    requires |Visible(frame, s.rows)| <= i <= s.rows
    requires i < s.rows ==> !s.repaint && |s.previous| <= i
    ensures Writes(s, frame, i) == []
  {
    hide Writes;
    NothingStale(s, frame, i);
  }

  lemma {:induction false} WriteStep(s: State, frame: seq<string>, i: nat, out: seq<Put>)
    requires i < s.rows && out + Writes(s, frame, i) == Writes(s, frame, 0)
    ensures Writes(s, frame, 0)
              == (if Rewrites(s, frame, i) then out + [Put(i, RowText(frame, s.rows, i))] else out)
                 + Writes(s, frame, i + 1)
  {
    hide Rewrites, RowText;
    var rest := Writes(s, frame, i + 1);
    if Rewrites(s, frame, i) {
      assert Writes(s, frame, i) == [Put(i, RowText(frame, s.rows, i))] + rest;
    } else {
      assert Writes(s, frame, i) == rest;
    }
  }

  lemma {:induction false} NothingStale(s: State, frame: seq<string>, from: nat)
    requires forall i | from <= i < s.rows :: !Rewrites(s, frame, i)
    ensures Writes(s, frame, from) == []
    decreases s.rows - from
  {
    if from < s.rows { NothingStale(s, frame, from + 1); }
  }

  lemma {:induction false} WritesUnfold(s: State, frame: seq<string>, from: nat)
    requires from < s.rows
    ensures var rest := Writes(s, frame, from + 1);
            Writes(s, frame, from)
              == if Rewrites(s, frame, from) then [Put(from, RowText(frame, s.rows, from))] + rest else rest
  {
  }

  // The terminal

  function Apply(screen: seq<string>, out: seq<Put>): (r: seq<string>)
    ensures |r| == |screen|
    decreases |out|
  {
    if out == [] then screen
    else
      Apply(if out[0].row < |screen| then screen[out[0].row := out[0].text] else screen, out[1..])
  }

  /** The screen of a full repaint: the clipped frame, then blank rows. */
  function Painted(frame: seq<string>, rows: nat): (r: seq<string>)
    ensures |r| == rows
  {
    seq(rows, i requires 0 <= i => RowText(frame, rows, i))
  }

  /** What the renderer believes about the terminal when it has no repaint pending. */
  ghost predicate Agrees(s: State, screen: seq<string>) {
    && |screen| == s.rows
    && (!s.repaint ==> |s.previous| <= s.rows && screen == Painted(s.previous, s.rows))
  }

  lemma {:induction false} ApplyNothing(screen: seq<string>)
    ensures Apply(screen, []) == screen
  {
  }

  lemma {:induction false} ApplyFirst(screen: seq<string>, put: Put, rest: seq<Put>)
    requires put.row < |screen|
    ensures Apply(screen, [put] + rest) == Apply(screen[put.row := put.text], rest)
  {
    assert ([put] + rest)[1..] == rest;
  }

  lemma {:induction false} WritesReach(s: State, frame: seq<string>, screen: seq<string>, from: nat)
    requires |screen| == s.rows && from <= s.rows
    requires forall i | from <= i < s.rows :: Rewrites(s, frame, i) || screen[i] == RowText(frame, s.rows, i)
    ensures var after := Apply(screen, Writes(s, frame, from));
            forall i | 0 <= i < s.rows :: after[i] == if i < from then screen[i] else RowText(frame, s.rows, i)
    decreases s.rows - from
  {
    hide Rewrites, RowText, Writes, Apply;
    if from == s.rows {
      NothingStale(s, frame, from);
      ApplyNothing(screen);
    } else {
      var rest := Writes(s, frame, from + 1);
      WritesUnfold(s, frame, from);
      if Rewrites(s, frame, from) {
        var put := Put(from, RowText(frame, s.rows, from));
        ApplyFirst(screen, put, rest);
        WritesReach(s, frame, screen[from := put.text], from + 1);
      } else {
        WritesReach(s, frame, screen, from + 1);
      }
    }
  }

  /** One render takes the terminal from agreement to exactly the repainted frame, and keeps agreement. */
  lemma {:induction false} RenderRepaints(s: State, frame: seq<string>, screen: seq<string>)
    requires Agrees(s, screen)
    ensures var after := Apply(screen, Writes(s, frame, 0));
            after == Painted(frame, s.rows) && Agrees(Rendered(s, frame), after)
  {
    WritesReach(s, frame, screen, 0);
    assert Painted(Visible(frame, s.rows), s.rows) == Painted(frame, s.rows);
  }

  // Whole runs

  datatype Event = Render(frame: seq<string>) | Resize(contents: seq<string>)

  datatype Run = Run(state: State, screen: seq<string>)

  function DiffStep(run: Run, e: Event): Run {
    match e
    case Render(frame) => Run(Rendered(run.state, frame), Apply(run.screen, Writes(run.state, frame, 0)))
    case Resize(contents) => Run(State(|contents|, run.state.previous, true), contents)
  }

  function DiffRun(run: Run, events: seq<Event>): Run
    decreases |events|
  {
    if events == [] then run else DiffRun(DiffStep(run, events[0]), events[1..])
  }

  /** The renderer without a buffer: every render writes every row. */
  function RepaintRun(screen: seq<string>, events: seq<Event>): seq<string>
    decreases |events|
  {
    if events == [] then screen
    else
      RepaintRun(if events[0].Render? then Painted(events[0].frame, |screen|) else events[0].contents, events[1..])
  }

  /** Over any run of renders and resizes, whatever a resize leaves behind, the terminal is as if fully repainted. */
  lemma {:induction false} DiffRefinesRepaint(run: Run, events: seq<Event>)
    requires Agrees(run.state, run.screen)
    ensures var end := DiffRun(run, events);
            end.screen == RepaintRun(run.screen, events) && Agrees(end.state, end.screen)
    decreases |events|
  {
    hide Agrees, Writes, Apply, Painted, Rendered;
    if events != [] {
      var next := DiffStep(run, events[0]);
      if events[0].Render? {
        assert |run.screen| == run.state.rows by { AgreesOnSize(run); }
        RenderRepaints(run.state, events[0].frame, run.screen);
      } else {
        FreshScreenAgrees(next);
      }
      DiffRefinesRepaint(next, events[1..]);
    }
  }

  lemma {:induction false} AgreesOnSize(run: Run)
    requires Agrees(run.state, run.screen)
    ensures |run.screen| == run.state.rows
  {
  }

  lemma {:induction false} FreshScreenAgrees(run: Run)
    requires run.state.repaint && |run.screen| == run.state.rows
    ensures Agrees(run.state, run.screen)
  {
  }

  // Economy

  /** A row is written only when its buffer entry changed, top down, each row at most once. */
  lemma {:induction false} WritesAreDue(s: State, frame: seq<string>, from: nat)
    ensures var out := Writes(s, frame, from);
            && (forall put <- out :: from <= put.row < s.rows && Rewrites(s, frame, put.row)
                  && put.text == RowText(frame, s.rows, put.row))
            && (forall j, k | 0 <= j < k < |out| :: out[j].row < out[k].row)
    decreases s.rows - from
  {
    hide Rewrites, RowText, Writes;
    if from < s.rows {
      WritesAreDue(s, frame, from + 1);
      WritesUnfold(s, frame, from);
    } else {
      NothingStale(s, frame, from);
    }
  }

  /** Every row whose buffer entry changed is written. */
  lemma {:induction false} DueRowsAreWritten(s: State, frame: seq<string>, from: nat, i: nat)
    requires from <= i < s.rows && Rewrites(s, frame, i)
    ensures Put(i, RowText(frame, s.rows, i)) in Writes(s, frame, from)
    decreases i - from
  {
    hide Writes, Rewrites, RowText;
    WritesUnfold(s, frame, from);
    if from < i {
      DueRowsAreWritten(s, frame, from + 1, i);
    }
  }

  predicate Written(s: State, frame: seq<string>, i: nat) {
    Put(i, RowText(frame, s.rows, i)) in Writes(s, frame, 0)
  }

  /** Only one of the two frames has row `i`, and there it is blank. */
  predicate BlankTail(s: State, frame: seq<string>, i: nat) {
    var shown := Visible(frame, s.rows);
    || (|shown| <= i < |s.previous| && s.previous[i] == "")
    || (|s.previous| <= i < |shown| && shown[i] == "")
  }

  lemma {:induction false} WrittenIsDue(s: State, frame: seq<string>, i: nat)
    requires i < s.rows
    ensures Written(s, frame, i) <==> Rewrites(s, frame, i)
  {
    hide Rewrites, RowText, Writes;
    if Rewrites(s, frame, i) { DueRowsAreWritten(s, frame, 0, i); }
    WritesAreDue(s, frame, 0);
  }

  /** One row is written when it differs, and else only if it is blank and just one of the two frames has it. */
  lemma {:induction false} RowIsWritten(s: State, frame: seq<string>, screen: seq<string>, i: nat)
    requires Agrees(s, screen) && !s.repaint && i < s.rows
    ensures Written(s, frame, i) <==> screen[i] != RowText(frame, s.rows, i) || BlankTail(s, frame, i)
    ensures BlankTail(s, frame, i) ==> screen[i] == "" && RowText(frame, s.rows, i) == ""
  {
    hide Written;
    WrittenIsDue(s, frame, i);
  }

  /**
   * Without a pending repaint, the rows written are just those that differ from the screen exactly when no
   * row that only one of the two frames has is blank.
   */
  lemma {:induction false} WritesDifferExactly(s: State, frame: seq<string>, screen: seq<string>)
    requires Agrees(s, screen) && !s.repaint
    ensures (forall i | 0 <= i < s.rows :: Written(s, frame, i) <==> screen[i] != RowText(frame, s.rows, i))
              <==> (forall i | 0 <= i < s.rows :: !BlankTail(s, frame, i))
  {
    hide Written, BlankTail, RowText;
    forall i | 0 <= i < s.rows
      ensures Written(s, frame, i) <==> screen[i] != RowText(frame, s.rows, i) || BlankTail(s, frame, i)
      ensures BlankTail(s, frame, i) ==> screen[i] == RowText(frame, s.rows, i)
    {
      RowIsWritten(s, frame, screen, i);
    }
  }

  /** Rows that already agree can be rewritten: a frame that gets shorter by a blank row clears it again. */
  lemma {:induction false} BlankRowsAreRewritten()
    ensures var s := State(2, ["a", ""], false);
            Agrees(s, ["a", ""]) && Painted(["a"], 2) == ["a", ""] && Writes(s, ["a"], 0) == [Put(1, "")]
  {
    var s := State(2, ["a", ""], false);
    assert Painted(["a", ""], 2) == ["a", ""];
    assert Painted(["a"], 2) == ["a", ""];
    assert !Rewrites(s, ["a"], 0) && Rewrites(s, ["a"], 1);
    assert Writes(s, ["a"], 2) == [];
    assert Writes(s, ["a"], 1) == [Put(1, "")];
  }
}
