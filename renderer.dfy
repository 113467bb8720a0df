/** output_mirc (noansi.c:478-533): a window of rows is printed as ASCII
    text with mIRC colour codes, one line per row. */
module Renderer {
  import opened Cells

  const LF: Byte := 0x0a
  const COLOR: Byte := 0x03   // mIRC's colour control byte
  const COMMA: Byte := 0x2c

  /** sgr_to_mirc: the mIRC colour number of each of the 16 SGR colours. */
  function SgrToMirc(c: Color): (m: nat)
    ensures m < 16
  {
    match c
    case 0 => 1   case 1 => 4   case 2 => 3    case 3 => 8
    case 4 => 2   case 5 => 6   case 6 => 11   case 7 => 15
    case 8 => 14  case 9 => 13  case 10 => 9   case 11 => 8
    case 12 => 12 case 13 => 13 case 14 => 10  case _ => 0
  }

  /** A pair of mIRC colours: foreground, then background. */
  datatype Colours = Colours(fg: int, bg: int)

  /** The colours in force at the start of every row, which no cell has. */
  const NoColours: Colours := Colours(65535, 65535)

  /** The mIRC colours a cell is printed in; the default cell gets the default
      foreground and background. */
  function ColoursOf(c: Cell): (p: Colours)
    ensures 0 <= p.fg < 16 && 0 <= p.bg < 16
  {
    if c == DefaultChar then Colours(SgrToMirc(DefaultFg), SgrToMirc(DefaultBg))
    else Colours(SgrToMirc(c.fg), SgrToMirc(c.bg))
  }

  predicate IsDigitByte(b: int) { '0' as int <= b <= '9' as int }

  /** `%02d` of a number below 100: two digits that read back as n. */
  function TwoDigits(n: nat): (s: seq<Byte>)
    requires n < 100
    ensures |s| == 2 && IsDigitByte(s[0]) && IsDigitByte(s[1])
    ensures (s[0] - '0' as int) * 10 + (s[1] - '0' as int) == n
  {
    ['0' as int + n / 10, '0' as int + n % 10]
  }

  /** The escape printed before a glyph in colours next when cur is in force:
      the pair `\x03fg,bg` when the background changes, `\x03fg` when only the
      foreground changes, and nothing when neither does. */
  function Escape(cur: Colours, next: Colours): (e: seq<Byte>)
    requires 0 <= next.fg < 100 && 0 <= next.bg < 100
    ensures |e| == 0 || |e| == 3 || |e| == 6
    ensures e == [] <==> cur == next
    ensures e != [] ==> e[0] == COLOR && e[1..3] == TwoDigits(next.fg)
    ensures |e| == 6 <==> cur.bg != next.bg
    ensures |e| == 6 ==> e[3] == COMMA && e[4..] == TwoDigits(next.bg)
    ensures |e| == 3 <==> cur.bg == next.bg && cur.fg != next.fg
  {
    var fgchange := cur.fg != next.fg;
    var bgchange := cur.bg != next.bg;
    if bgchange then [COLOR] + TwoDigits(next.fg) + [COMMA] + TwoDigits(next.bg)
    else if fgchange then [COLOR] + TwoDigits(next.fg)
    else []
  }

  /** The colours in force before cell k of a row is printed: those of the
      cell before it, or NoColours at the start of the row. */
  function Before(row: seq<Cell>, k: nat): Colours
    requires k <= |row|
  {
    if k == 0 then NoColours else ColoursOf(row[k - 1])
  }

  /** The bytes printed for the first n cells of a row. */
  function CellsOut(row: seq<Cell>, n: nat): (out: seq<Byte>)
    requires n <= |row|
  {
    if n == 0 then []
    else CellsOut(row, n - 1) + Escape(Before(row, n - 1), ColoursOf(row[n - 1])) + [row[n - 1].ch]
  }

  /** The length of a row without its trailing default cells: one more than
      the index of its last written cell, or 0 for a blank row. */
  function Stop(row: seq<Cell>): (n: nat)
    ensures n <= |row|
    ensures forall j :: n <= j < |row| ==> row[j] == DefaultChar
    ensures n > 0 ==> row[n - 1] != DefaultChar
  {
    if |row| == 0 then 0
    else if row[|row| - 1] == DefaultChar then Stop(row[..|row| - 1])
    else |row|
  }

  /** The line printed for a row: its cells up to the last written one, then a
      newline. */
  function RowOut(row: seq<Cell>): seq<Byte>
  {
    CellsOut(row, Stop(row)) + [LF]
  }

  predicate IsBlankRow(row: seq<Cell>)
  {
    forall j :: 0 <= j < |row| ==> row[j] == DefaultChar
  }

  /** The highest row below n holding a written cell, or -1 if there is none. */
  function Highest(g: Grid, n: nat): (r: int)
    requires n <= |g|
    ensures -1 <= r < n
    ensures r >= 0 ==> !IsBlankRow(g[r])
    ensures forall k :: r < k < n ==> IsBlankRow(g[k])
  {
    if n == 0 then -1
    else if IsBlankRow(g[n - 1]) then Highest(g, n - 1)
    else n - 1
  }

  /** The end of the printed window: `end`, but never past the last written
      row (row 0 when no row is written). */
  function Window(g: Grid, end: nat): (w: int)
    requires IsGrid(g)
    ensures 0 <= w <= NROWS
  {
    var r := Highest(g, NROWS);
    Min(end, (if r < 0 then 0 else r) + 1)
  }

  /** The lines of rows lo up to (not including) hi. */
  function RowsOut(g: Grid, lo: nat, hi: int): seq<Byte>
    requires hi <= lo || hi <= |g|
    decreases hi - lo
  {
    if hi <= lo then [] else RowsOut(g, lo, hi - 1) + RowOut(g[hi - 1])
  }

  /** Everything output_mirc prints for a screen holding g. */
  function Render(g: Grid, start: nat, end: nat): seq<Byte>
    requires IsGrid(g)
  {
    RowsOut(g, start, Window(g, end))
  }

  /** output_mirc on the screen array. */
  method OutputMirc(screen: array2<Cell>, colstart: nat, colend: nat) returns (out: seq<Byte>)
    requires screen.Length0 == NROWS && screen.Length1 == NCOLS
    ensures out == Render(Snapshot(screen), colstart, colend)
  {
    ghost var g := Snapshot(screen);
    var lasti := LastRow(screen, colend);
    out := [];
    var i := colstart;
    while i < lasti
      invariant colstart <= i && (i <= lasti || i == colstart)
      invariant out == RowsOut(g, colstart, i)
    {
      var line := PrintRow(screen, i);
      out := out + line;
      i := i + 1;
    }
  }

  /** The first loop of output_mirc: scan up from the bottom row for a
      written cell, then cut the window at colend. */
  method LastRow(screen: array2<Cell>, colend: nat) returns (lasti: int)
    requires screen.Length0 == NROWS && screen.Length1 == NCOLS
    ensures lasti == Window(Snapshot(screen), colend)
  {
    ghost var g := Snapshot(screen);
    var i: int := NROWS - 1;
    lasti := 0;
    while i >= 0 && lasti == 0
      invariant -1 <= i < NROWS
      invariant lasti == 0 ==> Highest(g, NROWS) == Highest(g, i + 1)
      invariant lasti != 0 ==> lasti == i + 2 && Highest(g, NROWS) == i + 1
      decreases i + 1
    {
      var j := 0;
      while j < NCOLS
        invariant 0 <= j <= NCOLS && lasti == 0
        invariant forall k :: 0 <= k < j ==> g[i][k] == DefaultChar
      {
        if screen[i, j] != DefaultChar {
          lasti := i + 1;
          break;
        }
        j := j + 1;
      }
      i := i - 1;
    }
    lasti := Min(colend, i + 2);
  }

  /** One pass of the row loop of output_mirc: the colours start unset, the
      trailing default cells are cut off, and each remaining cell is printed
      after the escape its colours call for. */
  method PrintRow(screen: array2<Cell>, i: nat) returns (line: seq<Byte>)
    requires screen.Length0 == NROWS && screen.Length1 == NCOLS && i < NROWS
    ensures line == RowOut(Snapshot(screen)[i])
  {
    ghost var g := Snapshot(screen);
    var curfg, curbg := 65535, 65535;
    var stopidx := StopIndex(screen, i);
    line := [];
    var j := 0;
    while j <= stopidx
      invariant 0 <= j <= stopidx + 1
      invariant line == CellsOut(g[i], j)
      invariant Colours(curfg, curbg) == Before(g[i], j)
    {
      var c := screen[i, j];
      var escape;
      escape, curfg, curbg := CellEscape(c, curfg, curbg);
      line := line + escape + [c.ch];
      j := j + 1;
    }
    line := line + [LF];
  }

  /** The index of the last written cell of row i, or -1. */
  method StopIndex(screen: array2<Cell>, i: nat) returns (stopidx: int)
    requires screen.Length0 == NROWS && screen.Length1 == NCOLS && i < NROWS
    ensures stopidx + 1 == Stop(Snapshot(screen)[i])
  {
    ghost var g := Snapshot(screen);
    var j := NCOLS - 1;
    while j >= 0
      invariant -1 <= j < NCOLS
      invariant forall k :: j < k < NCOLS ==> g[i][k] == DefaultChar
    {
      if screen[i, j] != DefaultChar {
        break;
      }
      j := j - 1;
    }
    stopidx := j;
  }

  /** The colours of cell c and the escape printed before it when curfg and
      curbg are in force. */
  method CellEscape(c: Cell, curfg: int, curbg: int) returns (escape: seq<Byte>, fg: int, bg: int)
    ensures escape == Escape(Colours(curfg, curbg), ColoursOf(c))
    ensures Colours(fg, bg) == ColoursOf(c)
  {
    var fgcolor, bgcolor, fgchange, bgchange := 0, 0, false, false;
    if c == DefaultChar {
      bgcolor := SgrToMirc(DefaultBg);
      fgcolor := SgrToMirc(DefaultFg);
    } else {
      bgcolor := SgrToMirc(c.bg);
      fgcolor := SgrToMirc(c.fg);
    }
    fg, bg := curfg, curbg;
    if fg != fgcolor {
      fg := fgcolor;
      fgchange := true;
    }
    if bg != bgcolor {
      bg := bgcolor;
      bgchange := true;
    }
    escape := [];
    if fgchange || bgchange {
      if bgchange {
        escape := [COLOR] + TwoDigits(fg) + [COMMA] + TwoDigits(bg);
      } else {
        escape := [COLOR] + TwoDigits(fg);
      }
    }
  }

  /** The first printed cell of a row always gets the full `\x03fg,bg` escape,
      because no cell has the colours that are in force at the start of a row. */
  lemma FirstCellEscape(row: seq<Cell>)
    requires Stop(row) > 0
    ensures var p := ColoursOf(row[0]);
      CellsOut(row, 1) == [COLOR] + TwoDigits(p.fg) + [COMMA] + TwoDigits(p.bg) + [row[0].ch]
  {
    assert CellsOut(row, 0) == [];
  }

  /** How often the byte b occurs in s. */
  function Count(s: seq<Byte>, b: Byte): (n: nat)
    ensures n <= |s|
  {
    if s == [] then 0 else (if s[0] == b then 1 else 0) + Count(s[1..], b)
  }

  /** Counting in a concatenation is adding the counts of its parts. */
  lemma {:induction false} CountAppend(s: seq<Byte>, t: seq<Byte>, b: Byte)
    ensures Count(s + t, b) == Count(s, b) + Count(t, b)
  {
    if s != [] {
      assert (s + t)[1..] == s[1..] + t;
      CountAppend(s[1..], t, b);
    } else {
      assert s + t == t;
    }
  }

  /** The number of colour changes among the first n cells of a row, counting
      the first cell as a change. */
  function Changes(row: seq<Cell>, n: nat): (c: nat)
    requires n <= |row|
    ensures c <= n
  {
    if n == 0 then 0
    else Changes(row, n - 1) + (if Before(row, n - 1) != ColoursOf(row[n - 1]) then 1 else 0)
  }

  /** Escapes are coalesced: when no glyph is the colour byte itself, the line
      of a row holds one escape per colour change and no others. */
  lemma {:induction false} EscapePerChange(row: seq<Cell>, n: nat)
    requires n <= |row|
    requires forall k :: 0 <= k < n ==> row[k].ch != COLOR
    ensures Count(CellsOut(row, n), COLOR) == Changes(row, n)
  {
    if n > 0 {
      assert Count(CellsOut(row, n - 1), COLOR) == Changes(row, n - 1) by {
        EscapePerChange(row, n - 1);
      }
      assert Count(CellsOut(row, n), COLOR) - Count(CellsOut(row, n - 1), COLOR) == Changes(row, n) - Changes(row, n - 1) by {
        ChangeStep(row, n);
      }
    }
  }

  /** The step of EscapePerChange: one more cell adds a colour byte exactly
      when its colours differ from those before it. */
  lemma ChangeStep(row: seq<Cell>, n: nat)
    requires 0 < n <= |row| && row[n - 1].ch != COLOR
    ensures Count(CellsOut(row, n), COLOR) - Count(CellsOut(row, n - 1), COLOR) ==
      Changes(row, n) - Changes(row, n - 1)
  {
    EscapeBytes(Before(row, n - 1), ColoursOf(row[n - 1]));
    CountStep(row, n, COLOR);
  }

  /** How often the byte b occurs in the output of n cells: in that of the
      first n - 1, in the escape of the last and in its glyph. */
  lemma CountStep(row: seq<Cell>, n: nat, b: Byte)
    requires 0 < n <= |row|
    ensures var e := Escape(Before(row, n - 1), ColoursOf(row[n - 1]));
      Count(CellsOut(row, n), b) ==
        Count(CellsOut(row, n - 1), b) + Count(e, b) + (if row[n - 1].ch == b then 1 else 0)
  {
    var e := Escape(Before(row, n - 1), ColoursOf(row[n - 1]));
    assert CellsOut(row, n) == CellsOut(row, n - 1) + e + [row[n - 1].ch];
    CountAppend(CellsOut(row, n - 1), e, b);
    CountAppend(CellsOut(row, n - 1) + e, [row[n - 1].ch], b);
  }

  /** An escape holds the colour byte once at its head, and no newline. */
  lemma EscapeBytes(cur: Colours, next: Colours)
    requires 0 <= next.fg < 100 && 0 <= next.bg < 100
    ensures var e := Escape(cur, next);
      Count(e, COLOR) == (if e == [] then 0 else 1) && Count(e, LF) == 0
  {
    var e := Escape(cur, next);
    if e != [] {
      var f := TwoDigits(next.fg);
      DigitBytes(next.fg);
      CountAppend([COLOR], f, COLOR);
      CountAppend([COLOR], f, LF);
      if |e| == 6 {
        var g := TwoDigits(next.bg);
        DigitBytes(next.bg);
        CountAppend([COLOR] + f, [COMMA], COLOR);
        CountAppend([COLOR] + f, [COMMA], LF);
        CountAppend([COLOR] + f + [COMMA], g, COLOR);
        CountAppend([COLOR] + f + [COMMA], g, LF);
        assert e == [COLOR] + f + [COMMA] + g;
      } else {
        assert e == [COLOR] + f;
      }
    }
  }

  /** The two digits of a colour number are neither the colour byte nor a
      newline. */
  lemma DigitBytes(n: nat)
    requires n < 100
    ensures Count(TwoDigits(n), COLOR) == 0 && Count(TwoDigits(n), LF) == 0
  {
    var f := TwoDigits(n);
    assert f[1..][1..] == [];
  }

  /** No cell of the grid holds a newline glyph. */
  ghost predicate NoNewline(g: Grid)
    requires IsGrid(g)
  {
    forall i, j :: 0 <= i < NROWS && 0 <= j < NCOLS ==> g[i][j].ch != LF
  }

  /** The printed cells of a row hold no newline when no glyph is one. */
  lemma {:induction false} CellsNoNewline(row: seq<Cell>, n: nat)
    requires n <= |row|
    requires forall k :: 0 <= k < n ==> row[k].ch != LF
    ensures Count(CellsOut(row, n), LF) == 0
  {
    if n > 0 {
      CellsNoNewline(row, n - 1);
      NoNewlineStep(row, n);
    }
  }

  /** The step of CellsNoNewline: one more cell adds no newline. */
  lemma NoNewlineStep(row: seq<Cell>, n: nat)
    requires 0 < n <= |row| && row[n - 1].ch != LF
    requires Count(CellsOut(row, n - 1), LF) == 0
    ensures Count(CellsOut(row, n), LF) == 0
  {
    EscapeBytes(Before(row, n - 1), ColoursOf(row[n - 1]));
    CountStep(row, n, LF);
  }

  /** Each printed row contributes exactly one newline. */
  lemma {:induction false} RowsLines(g: Grid, lo: nat, hi: int)
    requires IsGrid(g) && hi <= NROWS && NoNewline(g)
    ensures Count(RowsOut(g, lo, hi), LF) == (if hi <= lo then 0 else hi - lo)
    decreases hi - lo
  {
    if lo < hi {
      RowsLines(g, lo, hi - 1);
      var row := g[hi - 1];
      CellsNoNewline(row, Stop(row));
      CountAppend(CellsOut(row, Stop(row)), [LF], LF);
      CountAppend(RowsOut(g, lo, hi - 1), RowOut(row), LF);
    }
  }

  /** output_mirc prints one line for each row from start up to the window
      end: none when start is at or past it. */
  lemma RenderLines(g: Grid, start: nat, end: nat)
    requires IsGrid(g) && NoNewline(g)
    ensures var w := Window(g, end);
      Count(Render(g, start, end), LF) == (if w <= start then 0 else w - start)
  {
    RowsLines(g, start, Window(g, end));
  }

  /** A byte output_mirc can print: printable ASCII, the colour byte or a
      newline. */
  predicate IsText(b: Byte) { 0x20 <= b <= 0x7e || b == COLOR || b == LF }

  predicate AllText(s: seq<Byte>) { forall k :: 0 <= k < |s| ==> IsText(s[k]) }

  /** Every glyph of the grid is printable ASCII. */
  ghost predicate Printable(g: Grid)
    requires IsGrid(g)
  {
    forall i, j :: 0 <= i < NROWS && 0 <= j < NCOLS ==> 0x20 <= g[i][j].ch <= 0x7e
  }

  lemma TextAppend(s: seq<Byte>, t: seq<Byte>)
    requires AllText(s) && AllText(t)
    ensures AllText(s + t)
  {
    assert forall k :: |s| <= k < |s + t| ==> (s + t)[k] == t[k - |s|];
  }

  /** An escape is the colour byte followed by digits and a comma. */
  lemma EscapeText(cur: Colours, next: Colours)
    requires 0 <= next.fg < 100 && 0 <= next.bg < 100
    ensures AllText(Escape(cur, next))
    ensures var e := Escape(cur, next);
      forall k :: 0 <= k < |e| ==> e[k] == COLOR || e[k] == COMMA || IsDigitByte(e[k])
  {
    var e := Escape(cur, next);
    if e != [] {
      var f := TwoDigits(next.fg);
      assert e[1] == f[0] && e[2] == f[1];
      if |e| == 6 {
        var b := TwoDigits(next.bg);
        assert e[4] == b[0] && e[5] == b[1];
      }
    }
  }

  /** The printed cells of a row are text when its glyphs are printable. */
  lemma {:induction false} CellsText(row: seq<Cell>, n: nat)
    requires n <= |row|
    requires forall k :: 0 <= k < n ==> 0x20 <= row[k].ch <= 0x7e
    ensures AllText(CellsOut(row, n))
  {
    if n > 0 {
      CellsText(row, n - 1);
      var e := Escape(Before(row, n - 1), ColoursOf(row[n - 1]));
      EscapeText(Before(row, n - 1), ColoursOf(row[n - 1]));
      TextAppend(CellsOut(row, n - 1), e);
      TextAppend(CellsOut(row, n - 1) + e, [row[n - 1].ch]);
    }
  }

  /** So output_mirc prints nothing but text from a screen of printable
      glyphs. */
  lemma {:induction false} RowsText(g: Grid, lo: nat, hi: int)
    requires IsGrid(g) && hi <= NROWS && Printable(g)
    ensures AllText(RowsOut(g, lo, hi))
    decreases hi - lo
  {
    if lo < hi {
      RowsText(g, lo, hi - 1);
      var row := g[hi - 1];
      CellsText(row, Stop(row));
      TextAppend(CellsOut(row, Stop(row)), [LF]);
      TextAppend(RowsOut(g, lo, hi - 1), RowOut(row));
    }
  }
}
