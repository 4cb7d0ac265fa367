/** Run coalescing of the terminal backend (crates/frontend_tui/src/backend.rs,
`draw` and `flush_run`).

Cells that continue each other on a line with the same attributes are written
as one run: one cursor move, at most one change of attributes, one text.  The
terminal understands CUP and SGR as sections 8.3.21 and 8.3.117 of ECMA-48
define them: CUP is one-based, SGR 0 clears every rendition, any other SGR adds
to those in effect.
 */
module TerminalRuns {

  /** Graphic renditions in effect, by aspect (colours, weight, underline, ...). */
  type Attrs = map<nat, nat>

  type Symbol = string

  datatype Cell = Cell(x: nat, y: nat, symbol: Symbol, attrs: Attrs)

  datatype Command =
    | CursorPosition(line: nat, col: nat)
    | SgrReset
    | SgrAttributes(attrs: Attrs)
    | Text(symbols: seq<Symbol>)

  /** A screen position shows a symbol, or the rest of a wide one. */
  datatype Glyph = Glyph(symbol: Symbol, attrs: Attrs) | Continuation(attrs: Attrs)

  datatype Terminal = Terminal(screen: map<(nat, nat), Glyph>, x: nat, y: nat, attrs: Attrs)

  /** The drawing width of a symbol, never zero. */
  type Width = Symbol -> nat

  function Cols(width: Width, s: Symbol): nat { if width(s) == 0 then 1 else width(s) }

  function Shown(s: Symbol): Symbol { if s == "" then " " else s }

  // ---------------------------------------------------------------------
  // The terminal
  // ---------------------------------------------------------------------

  function PrintSymbol(t: Terminal, s: Symbol, width: Width): Terminal {
    var w := Cols(width, s);
    var drawn := map i: nat | t.x <= i < t.x + w ::
      (i, t.y) := if i == t.x then Glyph(s, t.attrs) else Continuation(t.attrs);
    Terminal(t.screen + drawn, t.x + w, t.y, t.attrs)
  }

  function PrintText(t: Terminal, text: seq<Symbol>, width: Width): Terminal {
    if text == [] then t
    else PrintSymbol(PrintText(t, text[..|text| - 1], width), text[|text| - 1], width)
  }

  function Execute(t: Terminal, c: Command, width: Width): Terminal {
    match c
    case CursorPosition(line, col) =>
      t.(y := if line == 0 then 0 else line - 1, x := if col == 0 then 0 else col - 1)
    case SgrReset => t.(attrs := map[])
    case SgrAttributes(a) => t.(attrs := t.attrs + a)
    case Text(symbols) => PrintText(t, symbols, width)
  }

  function Interpret(t: Terminal, out: seq<Command>, width: Width): Terminal {
    if out == [] then t
    else Execute(Interpret(t, out[..|out| - 1], width), out[|out| - 1], width)
  }

  lemma {:induction false} InterpretConcat(t: Terminal, a: seq<Command>, b: seq<Command>, width: Width)
    ensures Interpret(t, a + b, width) == Interpret(Interpret(t, a, width), b, width)
  {
    if b == [] {
      assert a + b == a;
    } else {
      var n := |b| - 1;
      assert (a + b)[..|a + b| - 1] == a + b[..n];
      InterpretConcat(t, a, b[..n], width);
    }
  }

  // ---------------------------------------------------------------------
  // Reference: one cell at a time
  // ---------------------------------------------------------------------

  /** Move to the cell, select exactly its attributes, print its symbol. */
  function DrawCell(t: Terminal, c: Cell, width: Width): Terminal {
    PrintSymbol(Terminal(t.screen, c.x, c.y, c.attrs), Shown(c.symbol), width)
  }

  function DrawCells(t: Terminal, cells: seq<Cell>, width: Width): Terminal {
    if cells == [] then t
    else DrawCell(DrawCells(t, cells[..|cells| - 1], width), cells[|cells| - 1], width)
  }

  // ---------------------------------------------------------------------
  // Runs
  // ---------------------------------------------------------------------

  datatype Run = Run(y: nat, x0: nat, attrs: Attrs, text: seq<Symbol>)

  /** `emitted` is what the terminal's attributes are known to be. */
  datatype Emitted = Nothing | Last(attrs: Attrs)

  function AttrCommands(attrs: Attrs, emitted: Emitted): seq<Command> {
    if emitted == Last(attrs) then []
    else if attrs == map[] then [SgrReset]
    else [SgrReset, SgrAttributes(attrs)]
  }

  function RunCommands(run: Run, emitted: Emitted): seq<Command> {
    [CursorPosition(run.y + 1, run.x0 + 1)] + AttrCommands(run.attrs, emitted) + [Text(run.text)]
  }

  /** The terminal that flushing a run leaves behind. */
  function AfterRun(t: Terminal, run: Run, width: Width): Terminal {
    PrintText(Terminal(t.screen, run.x0, run.y, run.attrs), run.text, width)
  }

  predicate Knows(t: Terminal, emitted: Emitted) {
    emitted.Last? ==> t.attrs == emitted.attrs
  }

  ghost predicate Flushed(out: seq<Command>, run: Run, emitted: Emitted,
                          out': seq<Command>, emitted': Emitted, width: Width)
  {
    && emitted' == Last(run.attrs)
    && forall t: Terminal :: Knows(Interpret(t, out, width), emitted) ==>
         Interpret(t, out', width) == AfterRun(Interpret(t, out, width), run, width)
  }

  /** `flush_run`: it selects the run's attributes, whatever was in effect. */
  method FlushRun(out: seq<Command>, run: Run, emitted: Emitted, width: Width)
    returns (out': seq<Command>, emitted': Emitted)
    ensures Flushed(out, run, emitted, out', emitted', width)
    ensures Moves(out') == Moves(out) + 1 && Texts(out') == Texts(out) + 1
    ensures Resets(out') == Resets(out) + if emitted == Last(run.attrs) then 0 else 1
  {
    out' := out + [CursorPosition(run.y + 1, run.x0 + 1)];
    if emitted == Nothing || emitted.attrs != run.attrs {
      if run.attrs == map[] {
        out' := out' + [SgrReset];
      } else {
        out' := out' + [SgrReset];
        out' := out' + [SgrAttributes(run.attrs)];
      }
    }
    emitted' := Last(run.attrs);
    out' := out' + [Text(run.text)];
    assert out' == out + RunCommands(run, emitted);
    RunCounts(out, run, emitted);
    forall t: Terminal | Knows(Interpret(t, out, width), emitted)
      ensures Interpret(t, out', width) == AfterRun(Interpret(t, out, width), run, width)
    {
      FlushMeaning(t, out, run, emitted, width);
    }
  }

  lemma FlushMeaning(t: Terminal, out: seq<Command>, run: Run, emitted: Emitted, width: Width)
    requires Knows(Interpret(t, out, width), emitted)
    ensures Interpret(t, out + RunCommands(run, emitted), width)
         == AfterRun(Interpret(t, out, width), run, width)
  {
    var cup, sgr, txt := [CursorPosition(run.y + 1, run.x0 + 1)], AttrCommands(run.attrs, emitted), [Text(run.text)];
    var t0 := Interpret(t, out, width);
    InterpretConcat(t, out, cup + sgr + txt, width);
    InterpretConcat(t0, cup + sgr, txt, width);
    InterpretConcat(t0, cup, sgr, width);
    RunMeaning(t0, run, emitted, width);
  }

  lemma RunMeaning(t: Terminal, run: Run, emitted: Emitted, width: Width)
    requires Knows(t, emitted)
    ensures var t1 := Interpret(t, [CursorPosition(run.y + 1, run.x0 + 1)], width);
      var t2 := Interpret(t1, AttrCommands(run.attrs, emitted), width);
      Interpret(t2, [Text(run.text)], width) == AfterRun(t, run, width)
  {
    InterpretOne(t, CursorPosition(run.y + 1, run.x0 + 1), width);
    var t1 := Interpret(t, [CursorPosition(run.y + 1, run.x0 + 1)], width);
    assert t1 == Terminal(t.screen, run.x0, run.y, t.attrs);
    SelectAttrs(t1, run.attrs, emitted, width);
    InterpretOne(t1.(attrs := run.attrs), Text(run.text), width);
  }

  lemma InterpretOne(t: Terminal, c: Command, width: Width)
    ensures Interpret(t, [c], width) == Execute(t, c, width)
  {
    assert [c][..0] == [];
  }

  lemma SelectAttrs(t: Terminal, attrs: Attrs, emitted: Emitted, width: Width)
    requires Knows(t, emitted)
    ensures Interpret(t, AttrCommands(attrs, emitted), width) == t.(attrs := attrs)
  {
    var sgr := AttrCommands(attrs, emitted);
    if |sgr| == 1 {
      InterpretOne(t, SgrReset, width);
    } else if |sgr| == 2 {
      assert sgr[..1] == [SgrReset] && sgr[1] == SgrAttributes(attrs);
      InterpretOne(t, SgrReset, width);
      assert map[] + attrs == attrs;
    }
  }

  /** A run extended by one symbol draws one more cell. */
  lemma ExtendRun(t: Terminal, run: Run, c: Cell, width: Width)
    requires c.y == run.y && c.attrs == run.attrs && c.x == AfterRun(t, run, width).x
    ensures AfterRun(t, run.(text := run.text + [Shown(c.symbol)]), width) ==
            DrawCell(AfterRun(t, run, width), c, width)
  {
    var text' := run.text + [Shown(c.symbol)];
    assert text'[..|text'| - 1] == run.text;
    PrintKeeps(Terminal(t.screen, run.x0, run.y, run.attrs), run.text, width);
  }

  lemma {:induction false} PrintKeeps(t: Terminal, text: seq<Symbol>, width: Width)
    ensures PrintText(t, text, width).y == t.y && PrintText(t, text, width).attrs == t.attrs
  {
    if text != [] { PrintKeeps(t, text[..|text| - 1], width); }
  }

  lemma StartRun(t: Terminal, c: Cell, width: Width)
    ensures AfterRun(t, Run(c.y, c.x, c.attrs, [Shown(c.symbol)]), width) == DrawCell(t, c, width)
  {
    var one, t' := [Shown(c.symbol)], Terminal(t.screen, c.x, c.y, c.attrs);
    assert one[..|one| - 1] == [];
    assert PrintText(t', one, width) == PrintSymbol(PrintText(t', [], width), one[0], width);
  }

  /** The output so far, with the open run flushed, has drawn the cells so far. */
  ghost predicate Drawn(t: Terminal, out: seq<Command>, emitted: Emitted, open: bool, run: Run,
                        cells: seq<Cell>, width: Width)
  {
    var t1 := Interpret(t, out, width);
    && Knows(t1, emitted)
    && DrawCells(t, cells, width) == (if open then AfterRun(t1, run, width) else t1)
  }

  lemma TakeCell(t: Terminal, out: seq<Command>, emitted: Emitted, run: Run, cells: seq<Cell>, c: Cell, width: Width)
    requires Drawn(t, out, emitted, true, run, cells, width)
    requires c.y == run.y && c.attrs == run.attrs && c.x == DrawCells(t, cells, width).x
    ensures Drawn(t, out, emitted, true, run.(text := run.text + [Shown(c.symbol)]), cells + [c], width)
  {
    ExtendRun(Interpret(t, out, width), run, c, width);
    assert (cells + [c])[..|cells|] == cells;
  }

  lemma OpenRun(t: Terminal, out: seq<Command>, emitted: Emitted, cells: seq<Cell>, c: Cell, width: Width)
    requires Knows(Interpret(t, out, width), emitted)
    requires DrawCells(t, cells, width) == Interpret(t, out, width)
    ensures Drawn(t, out, emitted, true, Run(c.y, c.x, c.attrs, [Shown(c.symbol)]), cells + [c], width)
  {
    StartRun(Interpret(t, out, width), c, width);
    assert (cells + [c])[..|cells|] == cells;
  }

  lemma ColumnAfter(t: Terminal, cells: seq<Cell>, c: Cell, width: Width)
    ensures DrawCells(t, cells + [c], width).x == c.x + Cols(width, Shown(c.symbol))
  {
    assert (cells + [c])[..|cells|] == cells;
  }

  /** The loop invariant of `draw`, for every initial terminal. */
  ghost predicate AllDrawn(out: seq<Command>, emitted: Emitted, open: bool, run: Run, nextX: nat,
                           cells: seq<Cell>, width: Width)
  {
    forall t: Terminal ::
      && Drawn(t, out, emitted, open, run, cells, width)
      && (open ==> DrawCells(t, cells, width).x == nextX)
  }

  lemma TakeCellAll(out: seq<Command>, emitted: Emitted, run: Run, nextX: nat, cells: seq<Cell>, c: Cell, width: Width)
    requires AllDrawn(out, emitted, true, run, nextX, cells, width)
    requires c.y == run.y && c.attrs == run.attrs && c.x == nextX
    ensures AllDrawn(out, emitted, true, run.(text := run.text + [Shown(c.symbol)]),
                     c.x + Cols(width, Shown(c.symbol)), cells + [c], width)
  {
    var cells', run' := cells + [c], run.(text := run.text + [Shown(c.symbol)]);
    forall t: Terminal
      ensures Drawn(t, out, emitted, true, run', cells', width)
      ensures DrawCells(t, cells', width).x == c.x + Cols(width, Shown(c.symbol))
    {
      assert Drawn(t, out, emitted, true, run, cells, width);
      TakeCell(t, out, emitted, run, cells, c, width);
      ColumnAfter(t, cells, c, width);
    }
  }

  lemma FlushAll(out: seq<Command>, run: Run, emitted: Emitted, out': seq<Command>, emitted': Emitted,
                 nextX: nat, cells: seq<Cell>, width: Width)
    requires AllDrawn(out, emitted, true, run, nextX, cells, width)
    requires Flushed(out, run, emitted, out', emitted', width)
    ensures AllDrawn(out', emitted', false, run, nextX, cells, width)
  {
    forall t: Terminal ensures Drawn(t, out', emitted', false, run, cells, width) {
      assert Drawn(t, out, emitted, true, run, cells, width);
      PrintKeeps(Terminal(Interpret(t, out, width).screen, run.x0, run.y, run.attrs), run.text, width);
    }
  }

  lemma OpenRunAll(out: seq<Command>, emitted: Emitted, run: Run, nextX: nat, cells: seq<Cell>, c: Cell, width: Width)
    requires AllDrawn(out, emitted, false, run, nextX, cells, width)
    ensures AllDrawn(out, emitted, true, Run(c.y, c.x, c.attrs, [Shown(c.symbol)]),
                     c.x + Cols(width, Shown(c.symbol)), cells + [c], width)
  {
    var cells', run' := cells + [c], Run(c.y, c.x, c.attrs, [Shown(c.symbol)]);
    forall t: Terminal
      ensures Drawn(t, out, emitted, true, run', cells', width)
      ensures DrawCells(t, cells', width).x == c.x + Cols(width, Shown(c.symbol))
    {
      assert Drawn(t, out, emitted, false, run, cells, width);
      OpenRun(t, out, emitted, cells, c, width);
      ColumnAfter(t, cells, c, width);
    }
  }

  // ---------------------------------------------------------------------
  // How much is written
  // ---------------------------------------------------------------------

  function Moves(out: seq<Command>): nat {
    if out == [] then 0 else Moves(out[..|out| - 1]) + if out[|out| - 1].CursorPosition? then 1 else 0
  }

  function Texts(out: seq<Command>): nat {
    if out == [] then 0 else Texts(out[..|out| - 1]) + if out[|out| - 1].Text? then 1 else 0
  }

  function Resets(out: seq<Command>): nat {
    if out == [] then 0 else Resets(out[..|out| - 1]) + if out[|out| - 1].SgrReset? then 1 else 0
  }

  lemma CountOne(out: seq<Command>, c: Command)
    ensures Moves(out + [c]) == Moves(out) + if c.CursorPosition? then 1 else 0
    ensures Texts(out + [c]) == Texts(out) + if c.Text? then 1 else 0
    ensures Resets(out + [c]) == Resets(out) + if c.SgrReset? then 1 else 0
  {
    assert (out + [c])[..|out|] == out;
  }

  lemma RunCounts(out: seq<Command>, run: Run, emitted: Emitted)
    ensures var out' := out + RunCommands(run, emitted);
      && Moves(out') == Moves(out) + 1 && Texts(out') == Texts(out) + 1
      && Resets(out') == Resets(out) + if emitted == Last(run.attrs) then 0 else 1
  {
    var cup, sgr, txt := CursorPosition(run.y + 1, run.x0 + 1), AttrCommands(run.attrs, emitted), Text(run.text);
    CountOne(out, cup);
    SgrCounts(out + [cup], run.attrs, emitted);
    CountOne(out + [cup] + sgr, txt);
    assert out + [cup] + sgr + [txt] == out + RunCommands(run, emitted);
  }

  lemma SgrCounts(out: seq<Command>, attrs: Attrs, emitted: Emitted)
    ensures var out' := out + AttrCommands(attrs, emitted);
      && Moves(out') == Moves(out) && Texts(out') == Texts(out)
      && Resets(out') == Resets(out) + if emitted == Last(attrs) then 0 else 1
  {
    if emitted == Last(attrs) {
      assert out + [] == out;
    } else {
      CountOne(out, SgrReset);
      if attrs != map[] {
        assert AttrCommands(attrs, emitted) == [SgrReset] + [SgrAttributes(attrs)];
        assert out + ([SgrReset] + [SgrAttributes(attrs)]) == out + [SgrReset] + [SgrAttributes(attrs)];
        CountOne(out + [SgrReset], SgrAttributes(attrs));
      }
    }
  }

  /** The cell is drawn right behind the one before it, with its attributes. */
  predicate Continues(before: Cell, c: Cell, width: Width) {
    c.y == before.y && c.attrs == before.attrs && c.x == before.x + Cols(width, Shown(before.symbol))
  }

  /** The number of maximal runs. */
  function RunsIn(cells: seq<Cell>, width: Width): nat {
    var n := |cells| - 1;
    if n < 0 then 0
    else if n == 0 then 1
    else RunsIn(cells[..n], width) + if Continues(cells[n - 1], cells[n], width) then 0 else 1
  }

  /** The number of stretches with the same attributes. */
  function StylesIn(cells: seq<Cell>): nat {
    var n := |cells| - 1;
    if n < 0 then 0
    else if n == 0 then 1
    else StylesIn(cells[..n]) + if cells[n - 1].attrs == cells[n].attrs then 0 else 1
  }

  /** The counts at the loop head of `draw`. */
  ghost predicate Counted(out: seq<Command>, emitted: Emitted, open: bool, run: Run, nextX: nat,
                          cells: seq<Cell>, width: Width)
  {
    && open == (cells != [])
    && (open ==>
          var last := cells[|cells| - 1];
          run.y == last.y && run.attrs == last.attrs && nextX == last.x + Cols(width, Shown(last.symbol)))
    && Moves(out) + (if open then 1 else 0) == RunsIn(cells, width)
    && Texts(out) == Moves(out)
    && Resets(out) + (if open && emitted != Last(run.attrs) then 1 else 0) == StylesIn(cells)
    && (!open ==> emitted == Nothing)
  }

  lemma RunsNext(cells: seq<Cell>, c: Cell, width: Width)
    ensures RunsIn(cells + [c], width) == RunsIn(cells, width) +
      if cells != [] && Continues(cells[|cells| - 1], c, width) then 0 else 1
  {
    var all := cells + [c];
    assert all[..|cells|] == cells && all[|all| - 1] == c;
    if cells != [] { assert all[|all| - 2] == cells[|cells| - 1]; }
  }

  lemma StylesNext(cells: seq<Cell>, c: Cell)
    ensures StylesIn(cells + [c]) == StylesIn(cells) +
      if cells != [] && cells[|cells| - 1].attrs == c.attrs then 0 else 1
  {
    var all := cells + [c];
    assert all[..|cells|] == cells && all[|all| - 1] == c;
    if cells != [] { assert all[|all| - 2] == cells[|cells| - 1]; }
  }

  lemma CountedTake(out: seq<Command>, emitted: Emitted, run: Run, nextX: nat, cells: seq<Cell>, c: Cell, width: Width)
    requires Counted(out, emitted, true, run, nextX, cells, width)
    requires c.y == run.y && c.attrs == run.attrs && c.x == nextX
    ensures Counted(out, emitted, true, run.(text := run.text + [Shown(c.symbol)]),
                    c.x + Cols(width, Shown(c.symbol)), cells + [c], width)
  {
    RunsNext(cells, c, width);
    StylesNext(cells, c);
  }

  /** A new run, after the open one, if any, has been flushed. */
  lemma CountedOpen(out: seq<Command>, emitted: Emitted, open: bool, run: Run, nextX: nat,
                    out': seq<Command>, emitted': Emitted, cells: seq<Cell>, c: Cell, width: Width)
    requires Counted(out, emitted, open, run, nextX, cells, width)
    requires !(open && c.y == run.y && c.x == nextX && c.attrs == run.attrs)
    requires !open ==> out' == out && emitted' == emitted
    requires open ==> Moves(out') == Moves(out) + 1 && Texts(out') == Texts(out) + 1 && emitted' == Last(run.attrs)
    requires open ==> Resets(out') == Resets(out) + if emitted == Last(run.attrs) then 0 else 1
    ensures Counted(out', emitted', true, Run(c.y, c.x, c.attrs, [Shown(c.symbol)]),
                    c.x + Cols(width, Shown(c.symbol)), cells + [c], width)
  {
    RunsNext(cells, c, width);
    StylesNext(cells, c);
  }

  /** `draw`: from any terminal, executing the commands leaves exactly the
      terminal that drawing the cells one by one leaves; and they are as few as
      can be: one move and one text for each maximal run, and one change of
      attributes for each stretch of cells with the same attributes. */
  method Draw(cells: seq<Cell>, width: Width) returns (out: seq<Command>)
    ensures forall t: Terminal :: Interpret(t, out, width) == DrawCells(t, cells, width)
    ensures Moves(out) == Texts(out) == RunsIn(cells, width) && Resets(out) == StylesIn(cells)
  {
    out := [];
    var emitted := Nothing;
    var run, nextX: nat, inRun := Run(0, 0, map[], []), 0, false;
    var i := 0;
    ghost var done: seq<Cell> := [];
    while i < |cells|
      invariant 0 <= i <= |cells| && done == cells[..i]
      invariant AllDrawn(out, emitted, inRun, run, nextX, done, width)
      invariant Counted(out, emitted, inRun, run, nextX, done, width)
    {
      var c := cells[i];
      if inRun && c.y == run.y && c.x == nextX && c.attrs == run.attrs {
        TakeCellAll(out, emitted, run, nextX, done, c, width);
        CountedTake(out, emitted, run, nextX, done, c, width);
      } else {
        ghost var out0, emitted0 := out, emitted;
        if inRun {
          out, emitted := FlushRun(out, run, emitted, width);
          FlushAll(out0, run, emitted0, out, emitted, nextX, done, width);
        }
        CountedOpen(out0, emitted0, inRun, run, nextX, out, emitted, done, c, width);
        OpenRunAll(out, emitted, run, nextX, done, c, width);
        run := Run(c.y, c.x, c.attrs, []);
        inRun := true;
        assert run.text + [Shown(c.symbol)] == [Shown(c.symbol)];
      }
      run := run.(text := run.text + [Shown(c.symbol)]);
      nextX := c.x + Cols(width, Shown(c.symbol));
      done, i := done + [c], i + 1;
    }
    assert done == cells;
    ghost var out0, emitted0 := out, emitted;
    if inRun {
      out, emitted := FlushRun(out, run, emitted, width);
      FlushAll(out0, run, emitted0, out, emitted, nextX, cells, width);
    }
    forall t: Terminal ensures Interpret(t, out, width) == DrawCells(t, cells, width) {
      assert Drawn(t, out, emitted, false, run, cells, width);
    }
  }

  // ---------------------------------------------------------------------
  // What the screen shows
  // ---------------------------------------------------------------------

  /** What a cell prints: its symbol, or a blank if it has none. */
  predicate Prints(c: Cell, s: Symbol) { s == if c.symbol != "" then c.symbol else " " }

  /** The columns a cell takes up: at least one. */
  ghost predicate Covers(c: Cell, width: Width, x: nat, y: nat) {
    exists s :: Prints(c, s) && c.y == y && (x == c.x || c.x < x < c.x + width(s))
  }

  lemma CoversIs(c: Cell, width: Width, x: nat, y: nat)
    ensures Covers(c, width, x, y) <==> c.y == y && c.x <= x < c.x + Cols(width, Shown(c.symbol))
  {
    assert Prints(c, Shown(c.symbol));
  }

  /** A screen position shows the last cell that covers it, symbol and attributes,
      and is left alone if none does. */
  lemma {:induction false} ScreenShows(t: Terminal, cells: seq<Cell>, width: Width, x: nat, y: nat, i: nat)
    requires i <= |cells| && (i < |cells| ==> Covers(cells[i], width, x, y))
    requires i == |cells| ==> forall j :: 0 <= j < |cells| ==> !Covers(cells[j], width, x, y)
    requires forall j :: i < j < |cells| ==> !Covers(cells[j], width, x, y)
    ensures var screen := DrawCells(t, cells, width).screen;
      if i == |cells| then
        ((x, y) in screen <==> (x, y) in t.screen) && ((x, y) in screen ==> screen[(x, y)] == t.screen[(x, y)])
      else
        && (x, y) in screen
        && (x == cells[i].x ==> exists s :: Prints(cells[i], s) && screen[(x, y)] == Glyph(s, cells[i].attrs))
        && (x != cells[i].x ==> screen[(x, y)] == Continuation(cells[i].attrs))
    decreases |cells|
  {
    if cells != [] {
      var n := |cells| - 1;
      CoversIs(cells[n], width, x, y);
      if i == n {
        assert Prints(cells[i], Shown(cells[i].symbol));
      } else {
        var before := cells[..n];
        ScreenShows(t, before, width, x, y, if i > n then n else i);
      }
    }
  }
}
