/** Two inputs followed through all the passes of the program: a bold
    colour reset before the next glyph, and the full block glyph. */
module Scenarios {
  import opened Cells
  import opened Interpreter
  import Charset
  import Normalizer
  import Renderer
  import Pipeline
  import opened RunProperties

  /** After the last two passes a cell is its own translation, normalised,
      and an unwritten cell is still the default cell. */
  lemma FinalCells(g: Grid)
    requires IsGrid(g)
    ensures forall i, j :: 0 <= i < NROWS && 0 <= j < NCOLS ==>
      Pipeline.Final(g)[i][j] == Normalizer.NormalizeCell(Charset.TranslateCell(g[i][j]))
    ensures forall i, j :: 0 <= i < NROWS && 0 <= j < NCOLS && g[i][j] == DefaultChar ==>
      Pipeline.Final(g)[i][j] == DefaultChar
  {
    Charset.TranslateDefault();
  }

  /** The last written row of a screen written in its first row only. */
  lemma FirstRowHighest(g: Grid)
    requires IsGrid(g) && !Renderer.IsBlankRow(g[0])
    requires forall i :: 1 <= i < NROWS ==> Renderer.IsBlankRow(g[i])
    ensures Renderer.Highest(g, NROWS) == 0
  {
  }

  /** A screen written in its first row only prints that row alone, or
      nothing when the window is empty. */
  lemma FirstRowOnly(g: Grid, end: nat)
    requires IsGrid(g) && !Renderer.IsBlankRow(g[0])
    requires forall i, j :: 1 <= i < NROWS && 0 <= j < NCOLS ==> g[i][j] == DefaultChar
    ensures Renderer.Render(g, 0, end) == if end == 0 then [] else Renderer.RowOut(g[0])
  {
    FirstRowHighest(g);
    assert Renderer.Window(g, end) == Min(end, 1);
    if end > 0 {
      assert Renderer.RowsOut(g, 0, 1) == Renderer.RowsOut(g, 0, 0) + Renderer.RowOut(g[0]);
    }
  }

  /** The screen after the last two passes when the pass wrote the cells a
      and b at the start of the first row and nothing else. */
  lemma FinalFirstRow(a: Cell, b: Cell)
    requires a != DefaultChar && b != DefaultChar
    ensures var h := Pipeline.Final(Write(Write(Blank(), 0, 0, a), 0, 1, b));
      h[0][0] == Normalizer.NormalizeCell(Charset.TranslateCell(a)) &&
      h[0][1] == Normalizer.NormalizeCell(Charset.TranslateCell(b)) &&
      (forall j :: 2 <= j < NCOLS ==> h[0][j] == DefaultChar) &&
      (forall i, j :: 1 <= i < NROWS && 0 <= j < NCOLS ==> h[i][j] == DefaultChar)
  {
    var g := Write(Write(Blank(), 0, 0, a), 0, 1, b);
    FinalCells(g);
  }

  /** The same for a screen with one written cell, at the top left corner. */
  lemma FinalFirstCell(a: Cell)
    requires a != DefaultChar
    ensures var h := Pipeline.Final(Write(Blank(), 0, 0, a));
      h[0][0] == Normalizer.NormalizeCell(Charset.TranslateCell(a)) &&
      (forall j :: 1 <= j < NCOLS ==> h[0][j] == DefaultChar) &&
      (forall i, j :: 1 <= i < NROWS && 0 <= j < NCOLS ==> h[i][j] == DefaultChar)
  {
    FinalCells(Write(Blank(), 0, 0, a));
  }

  /** A row holding the written cells a and b and then default cells prints
      the full colour pair and a, then b with the escape for its change. */
  lemma TwoCellRow(row: seq<Cell>)
    requires |row| == NCOLS && row[0] != DefaultChar && row[1] != DefaultChar
    requires forall j :: 2 <= j < NCOLS ==> row[j] == DefaultChar
    ensures var p := Renderer.ColoursOf(row[0]);
      Renderer.RowOut(row) ==
        [Renderer.COLOR] + Renderer.TwoDigits(p.fg) + [Renderer.COMMA] + Renderer.TwoDigits(p.bg) + [row[0].ch] +
        Renderer.Escape(p, Renderer.ColoursOf(row[1])) + [row[1].ch] + [Renderer.LF]
  {
    assert Renderer.Stop(row) == 2;
    Renderer.FirstCellEscape(row);
  }

  /** The same for a row with one written cell. */
  lemma OneCellRow(row: seq<Cell>)
    requires |row| == NCOLS && row[0] != DefaultChar
    requires forall j :: 1 <= j < NCOLS ==> row[j] == DefaultChar
    ensures var p := Renderer.ColoursOf(row[0]);
      Renderer.RowOut(row) ==
        [Renderer.COLOR] + Renderer.TwoDigits(p.fg) + [Renderer.COMMA] + Renderer.TwoDigits(p.bg) + [row[0].ch] + [Renderer.LF]
  {
    assert Renderer.Stop(row) == 1;
    Renderer.FirstCellEscape(row);
  }

  // ---------------------------------------------------------------------
  // The full block

  /** The full block 0xDB in the default rendition becomes a space in swapped
      colours: bright black on white, mIRC 14 on 15. */
  lemma SolidBlock()
    ensures var c := Normalizer.NormalizeCell(Charset.TranslateCell(Cell(0xdb, DefaultFg, DefaultBg, {})));
      c == Cell(0x20, 8, 7, {}) && Renderer.ColoursOf(c) == Renderer.Colours(14, 15)
  {
    var t := Charset.TranslateCell(Cell(0xdb, DefaultFg, DefaultBg, {}));
    assert t.flags == {BgBold, Inverse};
  }

  const BlockLine: seq<Byte> :=
    [Renderer.COLOR, '1' as int, '4' as int, Renderer.COMMA, '1' as int, '5' as int, 0x20, Renderer.LF]

  /** The pass on the input 0xDB alone writes it in the default rendition
      at the top left corner. */
  lemma BlockRun(input: seq<Byte>, cfg: Config)
    requires |input| == 1 && input[0] == 0xdb
    ensures Run(input, 0, Initial(Blank()), cfg) ==
      Finished(Initial(Blank()).(grid := Write(Blank(), 0, 0, Cell(0xdb, DefaultFg, DefaultBg, {})), col := 1))
  {
    var t0 := Initial(Blank());
    var t1 := t0.(grid := Write(Blank(), 0, 0, Cell(0xdb, DefaultFg, DefaultBg, {})), col := 1);
    assert Put(t0, 0xdb, cfg) == Some(t1);
    assert Run(input, 0, t0, cfg) == Run(input, 1, t1, cfg);
  }

  /** A row holding the translated block and then default cells prints the
      colour pair 14,15 and a space. */
  lemma BlockRow(row: seq<Cell>)
    requires |row| == NCOLS && row[0] == Cell(0x20, 8, 7, {})
    requires forall j :: 1 <= j < NCOLS ==> row[j] == DefaultChar
    ensures Renderer.RowOut(row) == BlockLine
  {
    OneCellRow(row);
    assert Renderer.ColoursOf(row[0]) == Renderer.Colours(14, 15);
  }

  /** That screen prints as that one row. */
  lemma BlockRender(end: nat)
    ensures Renderer.Render(Pipeline.Final(Write(Blank(), 0, 0, Cell(0xdb, DefaultFg, DefaultBg, {}))), 0, end) ==
      if end == 0 then [] else BlockLine
  {
    var g := Write(Blank(), 0, 0, Cell(0xdb, DefaultFg, DefaultBg, {}));
    var h := Pipeline.Final(g);
    FinalFirstCell(Cell(0xdb, DefaultFg, DefaultBg, {}));
    SolidBlock();
    FirstRowOnly(h, end);
    BlockRow(h[0]);
  }

  /** The input 0xDB alone prints one line: the colour pair 14,15 and a
      space. */
  lemma BlockInput(input: seq<Byte>, cfg: Config, end: nat)
    requires |input| == 1 && input[0] == 0xdb
    ensures Pipeline.Convert(input, cfg, 0, end) == Pipeline.Output(if end == 0 then [] else BlockLine)
  {
    BlockRun(input, cfg);
    BlockRender(end);
  }

  // ---------------------------------------------------------------------
  // Bold red, then a reset

  /** The glyph cells the input `ESC [ 1 ; 31 m A ESC [ 0 m B` writes:
      a bold red A and a B in the default colours. */
  const BoldA: Cell := Cell('A' as int, 1, 0, {Bold})
  const PlainB: Cell := Cell('B' as int, DefaultFg, DefaultBg, {})

  /** The number 31 stored after the parameter 1. */
  lemma ThirtyOne()
    ensures Flush(Csi(5, ['3' as int, '1' as int], [1], false, 1)) == Csi(5, [], [1, 31], false, 1)
  {
    assert DecimalPrefix(['3' as int, '1' as int], 1) == 3;
  }

  /** Two digits in a row go into nbuf. */
  lemma TwoDigitSteps(input: seq<Byte>, k: nat, s: Csi, cfg: Config)
    requires k + 1 < |input| && Partial(s) && s.len + 2 < MAXSEQLEN && s.digits == []
    requires IsDigit(input[k]) && IsDigit(input[k + 1])
    ensures Partial(s.(len := s.len + 2, digits := [input[k], input[k + 1]]))
    ensures Scan(input, k, s, cfg) == Scan(input, k + 2, s.(len := s.len + 2, digits := [input[k], input[k + 1]]), cfg)
  {
    var s1 := DigitStep(input, k, s, cfg);
    var s2 := DigitStep(input, k + 1, s1, cfg);
    assert s2 == s.(len := s.len + 2, digits := [input[k], input[k + 1]]);
  }

  /** `31m` after the parameter 1 adds the parameter 31 and ends the
      sequence. */
  lemma ThirtyOneScan(input: seq<Byte>, cfg: Config)
    requires |input| > 6 && input[4] == '3' as int && input[5] == '1' as int && input[6] == 'm' as int
    ensures Scan(input, 4, Csi(2, [], [1], false, 1), cfg) == Complete(Csi(5, [], [1, 31], false, 1), 'm' as int, 7)
  {
    var s4 := Csi(4, ['3' as int, '1' as int], [1], false, 1);
    TwoDigitSteps(input, 4, Csi(2, [], [1], false, 1), cfg);
    assert Csi(2, [], [1], false, 1).(len := 4, digits := [input[4], input[5]]) == s4;
    FinalStep(input, 6, s4, cfg);
    ThirtyOne();
  }

  /** `1;31m` is read as the parameters 1 and 31. */
  lemma BoldRedScan(input: seq<Byte>, cfg: Config)
    requires |input| > 6 && input[2] == '1' as int && input[3] == ';' as int
    requires input[4] == '3' as int && input[5] == '1' as int && input[6] == 'm' as int
    ensures Scan(input, 2, CsiStart, cfg) == Complete(Csi(5, [], [1, 31], false, 1), 'm' as int, 7)
  {
    var s2 := Csi(CsiStart.len + 2, [], CsiStart.params + [input[2] - '0' as int], CsiStart.ques, CsiStart.semis + 1);
    assert s2 == Csi(2, [], [1], false, 1);
    SlotStep(input, 2, CsiStart, cfg);
    ThirtyOneScan(input, cfg);
    calc {
      Scan(input, 2, CsiStart, cfg);
      Scan(input, 4, s2, cfg);
      Complete(Csi(5, [], [1, 31], false, 1), 'm' as int, 7);
    }
  }

  /** `0m` is read as the parameter 0. */
  lemma ResetScan(input: seq<Byte>, k: nat, cfg: Config)
    requires k + 1 < |input| && input[k] == '0' as int && input[k + 1] == 'm' as int
    ensures Scan(input, k, CsiStart, cfg) == Complete(Csi(2, [], [0], false, 0), 'm' as int, k + 2)
  {
    var s1 := DigitStep(input, k, CsiStart, cfg);
    DecimalOne('0' as int);
    FinalStep(input, k + 1, s1, cfg);
  }

  /** Bold, then red: the flags of 1 and the colour of 31. */
  lemma BoldRedRendition()
    ensures ApplySgrs(InitialRendition, [1, 31]) == Rendition(1, DefaultBg, {Bold})
  {
    assert [1, 31][..1] == [1];
    assert [1][..0] == [];
  }

  /** The first half, `ESC [ 1 ; 31 m A`: the bold red A at the top left
      corner. */
  lemma BoldRedFirstHalf(input: seq<Byte>, cfg: Config)
    requires |input| > 8 && input[0] == ESC && input[1] == '[' as int
    requires input[2] == '1' as int && input[3] == ';' as int && input[4] == '3' as int
    requires input[5] == '1' as int && input[6] == 'm' as int && input[7] == 'A' as int
    ensures Run(input, 0, Initial(Blank()), cfg) ==
      Run(input, 8, Term(Write(Blank(), 0, 0, BoldA), 0, 1, 255, 255, Rendition(1, DefaultBg, {Bold}), true), cfg)
  {
    var t0 := Initial(Blank());
    BoldRedScan(input, cfg);
    BoldRedRendition();
    var t1 := t0.(rend := Rendition(1, DefaultBg, {Bold}));
    assert Perform(t0, Csi(5, [], [1, 31], false, 1), 'm' as int) == Ok(t1);
    SequenceStep(input, 0, t0, cfg, Csi(5, [], [1, 31], false, 1), 'm' as int, 7, t1);
    var t2 := t1.(grid := Write(Blank(), 0, 0, BoldA), col := 1);
    assert t2 == Term(Write(Blank(), 0, 0, BoldA), 0, 1, 255, 255, Rendition(1, DefaultBg, {Bold}), true);
    assert Put(t1, 'A' as int, cfg) == Some(t2);
    assert Run(input, 7, t1, cfg) == Run(input, 8, t2, cfg);
  }

  /** The second half, `ESC [ 0 m B`: back to the default rendition, then
      the B beside the A. */
  lemma BoldRedSecondHalf(input: seq<Byte>, cfg: Config)
    requires |input| == 13 && input[8] == ESC && input[9] == '[' as int && input[10] == '0' as int
    requires input[11] == 'm' as int && input[12] == 'B' as int
    ensures Run(input, 8, Term(Write(Blank(), 0, 0, BoldA), 0, 1, 255, 255, Rendition(1, DefaultBg, {Bold}), true), cfg) ==
      Finished(Term(Write(Write(Blank(), 0, 0, BoldA), 0, 1, PlainB), 0, 2, 255, 255, InitialRendition, true))
  {
    var g2 := Write(Blank(), 0, 0, BoldA);
    var t2 := Term(g2, 0, 1, 255, 255, Rendition(1, DefaultBg, {Bold}), true);
    ResetScan(input, 10, cfg);
    var t3 := t2.(rend := InitialRendition);
    assert Perform(t2, Csi(2, [], [0], false, 0), 'm' as int) == Ok(t3);
    SequenceStep(input, 8, t2, cfg, Csi(2, [], [0], false, 0), 'm' as int, 12, t3);
    var t4 := t3.(grid := Write(g2, 0, 1, PlainB), col := 2);
    assert Put(t3, 'B' as int, cfg) == Some(t4);
    assert Run(input, 12, t3, cfg) == Run(input, 13, t4, cfg) == Finished(t4);
  }

  /** The pass writes the two glyphs side by side on the first row and
      ends in the default rendition. */
  lemma BoldRedRun(input: seq<Byte>, cfg: Config)
    requires |input| == 13 && input[0] == ESC && input[1] == '[' as int
    requires input[2] == '1' as int && input[3] == ';' as int && input[4] == '3' as int
    requires input[5] == '1' as int && input[6] == 'm' as int && input[7] == 'A' as int
    requires input[8] == ESC && input[9] == '[' as int && input[10] == '0' as int
    requires input[11] == 'm' as int && input[12] == 'B' as int
    ensures Run(input, 0, Initial(Blank()), cfg) ==
      Finished(Term(Write(Write(Blank(), 0, 0, BoldA), 0, 1, PlainB), 0, 2, 255, 255, InitialRendition, true))
  {
    BoldRedFirstHalf(input, cfg);
    BoldRedSecondHalf(input, cfg);
  }

  const BoldRedLine: seq<Byte> :=
    [Renderer.COLOR, '1' as int, '3' as int, Renderer.COMMA, '0' as int, '1' as int, 'A' as int,
     Renderer.COLOR, '1' as int, '5' as int, 'B' as int, Renderer.LF]

  /** After the last two passes the bold red A is bright red (SGR colour 9)
      and the B keeps its colours. */
  lemma BoldRedCells()
    ensures Normalizer.NormalizeCell(Charset.TranslateCell(BoldA)) == Cell('A' as int, 9, 0, {})
    ensures Normalizer.NormalizeCell(Charset.TranslateCell(PlainB)) == Cell('B' as int, 7, 0, {})
  {
  }

  /** A row holding the bright red A and then the B prints the A as mIRC 13
      on 1 and the B with only the foreground code 15, the background being
      the same. */
  lemma BoldRedRow(row: seq<Cell>)
    requires |row| == NCOLS && row[0] == Cell('A' as int, 9, 0, {}) && row[1] == Cell('B' as int, 7, 0, {})
    requires forall j :: 2 <= j < NCOLS ==> row[j] == DefaultChar
    ensures Renderer.RowOut(row) == BoldRedLine
  {
    TwoCellRow(row);
    assert Renderer.ColoursOf(row[0]) == Renderer.Colours(13, 1);
    assert Renderer.ColoursOf(row[1]) == Renderer.Colours(15, 1);
  }

  /** The screen of BoldRedRun prints as that one row. */
  lemma BoldRedRender(end: nat)
    ensures var g := Write(Write(Blank(), 0, 0, BoldA), 0, 1, PlainB);
      Renderer.Render(Pipeline.Final(g), 0, end) == if end == 0 then [] else BoldRedLine
  {
    var g := Write(Write(Blank(), 0, 0, BoldA), 0, 1, PlainB);
    var h := Pipeline.Final(g);
    FinalFirstRow(BoldA, PlainB);
    BoldRedCells();
    FirstRowOnly(h, end);
    BoldRedRow(h[0]);
  }

  /** `ESC [ 1 ; 31 m A ESC [ 0 m B` prints one line: the bright red A and,
      after a foreground-only code, the B in white. */
  lemma BoldRed(input: seq<Byte>, cfg: Config, end: nat)
    requires |input| == 13 && input[0] == ESC && input[1] == '[' as int
    requires input[2] == '1' as int && input[3] == ';' as int && input[4] == '3' as int
    requires input[5] == '1' as int && input[6] == 'm' as int && input[7] == 'A' as int
    requires input[8] == ESC && input[9] == '[' as int && input[10] == '0' as int
    requires input[11] == 'm' as int && input[12] == 'B' as int
    ensures Pipeline.Convert(input, cfg, 0, end) == Pipeline.Output(if end == 0 then [] else BoldRedLine)
  {
    BoldRedRun(input, cfg);
    BoldRedRender(end);
  }
}
