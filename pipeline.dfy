/** The passes of noansi in the order main runs them (noansi.c:583-588):
    clear_screen, read_ansi, cp437_to_ascii, normalize and output_mirc on one
    screen. */
module Pipeline {
  import opened Cells
  import Interpreter
  import Charset
  import Normalizer
  import Renderer

  /** What a run ends with: the text printed on stdout, or the error doerror
      reports, after which nothing is printed. */
  datatype Converted = Output(bytes: seq<Byte>) | Failed(error: Interpreter.Error)

  /** The screen after the two passes that rewrite every cell. */
  function Final(g: Grid): (h: Grid)
    requires IsGrid(g)
    ensures IsGrid(h)
  {
    Normalizer.Resolve(Charset.Translate(g))
  }

  /** The whole program on the input bytes, with the -t and -z switches in
      cfg and the row window [start, end). */
  function Convert(input: seq<Byte>, cfg: Interpreter.Config, start: nat, end: nat): Converted
  {
    match Interpreter.Run(input, 0, Interpreter.Initial(Blank()), cfg)
    case Aborted(e) => Failed(e)
    case Finished(t) => Output(Renderer.Render(Final(t.grid), start, end))
  }

  /** The body of main after the command line: one screen array, cleared,
      filled, translated, normalised and printed. */
  method NoAnsi(input: seq<Byte>, cfg: Interpreter.Config, colstart: nat, colend: nat) returns (r: Converted)
    ensures r == Convert(input, cfg, colstart, colend)
  {
    var screen := new Cell[NROWS, NCOLS];
    ClearScreen(screen);
    ghost var o := Interpreter.Run(input, 0, Interpreter.Initial(Blank()), cfg);
    var status := Interpreter.ReadAnsi(screen, input, cfg);
    if status.Abort? {
      return Failed(status.error);
    }
    ghost var read := Snapshot(screen);
    assert read == o.term.grid;
    Charset.CpToAscii(screen);
    ghost var translated := Snapshot(screen);
    assert translated == Charset.Translate(read);
    Normalizer.Normalize(screen);
    assert Snapshot(screen) == Final(read);
    var out := Renderer.OutputMirc(screen, colstart, colend);
    return Output(out);
  }

  /** After cp437_to_ascii every glyph is printable ASCII, and normalize keeps
      glyphs. */
  lemma FinalPrintable(g: Grid)
    requires IsGrid(g)
    ensures Renderer.Printable(Final(g)) && Renderer.NoNewline(Final(g))
  {
    var h := Charset.Translate(g);
    forall i, j | 0 <= i < NROWS && 0 <= j < NCOLS
      ensures 0x20 <= Final(g)[i][j].ch <= 0x7e
    {
      assert Final(g)[i][j] == Normalizer.NormalizeCell(h[i][j]);
      assert h[i][j].ch == Charset.Cp437(g[i][j].ch);
    }
  }

  /** The output has one newline per printed row: the rows from start up to
      the window end. */
  lemma OutputLines(input: seq<Byte>, cfg: Interpreter.Config, start: nat, end: nat)
    requires Convert(input, cfg, start, end).Output?
    ensures var t := Interpreter.Run(input, 0, Interpreter.Initial(Blank()), cfg).term;
      var w := Renderer.Window(Final(t.grid), end);
      w <= end && Renderer.Count(Convert(input, cfg, start, end).bytes, Renderer.LF) == (if w <= start then 0 else w - start)
  {
    var t := Interpreter.Run(input, 0, Interpreter.Initial(Blank()), cfg).term;
    FinalPrintable(t.grid);
    Renderer.RenderLines(Final(t.grid), start, end);
  }

  /** Nothing but printable ASCII, the mIRC colour byte and newlines is ever
      printed. */
  lemma OutputText(input: seq<Byte>, cfg: Interpreter.Config, start: nat, end: nat)
    requires Convert(input, cfg, start, end).Output?
    ensures Renderer.AllText(Convert(input, cfg, start, end).bytes)
  {
    var t := Interpreter.Run(input, 0, Interpreter.Initial(Blank()), cfg).term;
    var h := Final(t.grid);
    FinalPrintable(t.grid);
    Renderer.RowsText(h, start, Renderer.Window(h, end));
  }

  /** cp437_to_ascii and normalize leave a cleared screen as it is. */
  lemma FinalBlank()
    ensures Final(Blank()) == Blank()
  {
    Charset.TranslateDefault();
    SameGrid(Final(Blank()), Blank());
  }

  /** A blank screen has no written row, so its window ends after row 0. */
  lemma BlankWindow(end: nat)
    ensures Renderer.Window(Blank(), end) == Min(end, 1)
  {
    var g := Blank();
    assert forall i :: 0 <= i < NROWS ==> Renderer.IsBlankRow(g[i]);
  }

  /** A blank row prints as an empty line. */
  lemma BlankLine()
    ensures Renderer.RowOut(Blank()[0]) == [Renderer.LF]
  {
    var row := Blank()[0];
    assert Renderer.IsBlankRow(row);
  }

  /** An empty input prints row 0 as an empty line, unless the window is
      empty: a blank screen still counts as having its last written row at 0. */
  lemma EmptyInput(cfg: Interpreter.Config, end: nat)
    ensures Convert([], cfg, 0, end) == Output(if end == 0 then [] else [Renderer.LF])
  {
    FinalBlank();
    BlankWindow(end);
    BlankLine();
    var g := Blank();
    assert Renderer.Render(g, 0, end) == Renderer.RowsOut(g, 0, Min(end, 1));
    if end > 0 {
      assert Renderer.RowsOut(g, 0, 1) == Renderer.RowsOut(g, 0, 0) + Renderer.RowOut(g[0]);
    }
  }
}
