/** Properties of one step of read_ansi: a byte written or a cursor control
    (noansi.c:156-179) and a control sequence carried out (noansi.c:222-374). */
module TermProperties {
  import opened Cells
  import opened Interpreter
  import opened SgrProperties

  /** No cell of the grid is a written cell carrying Unchanged. */
  ghost predicate Clean(g: Grid)
    requires IsGrid(g)
  {
    forall i, j :: 0 <= i < NROWS && 0 <= j < NCOLS ==> g[i][j] == DefaultChar || Unchanged !in g[i][j].flags
  }

  /** What holds of every state read_ansi reaches. */
  ghost predicate Sane(t: Term)
  {
    t.Valid() && t.wrapping && Plain(t.rend) && Clean(t.grid)
  }

  /** A byte that is written to the screen rather than acted on. */
  predicate IsGlyph(c: Byte, cfg: Config)
  {
    c != LF && c != CR && !(c == TAB && cfg.expandTab) && !(c == SUB && !cfg.includeZ)
  }

  /** A glyph is written at the cursor in the current colours and flags; no
      other cell changes, the written cell differs from the default cell, and
      the cursor moves one column on, wrapping to the start of the next row
      (the last row stays the last). */
  lemma PutGlyph(t: Term, c: Byte, cfg: Config)
    requires Sane(t) && IsGlyph(c, cfg)
    ensures Put(t, c, cfg).Some?
    ensures var u := Put(t, c, cfg).value;
      u.grid[t.row][t.col] == Cell(c, t.rend.fg, t.rend.bg, t.rend.flags) &&
      u.grid[t.row][t.col] != DefaultChar &&
      (forall i, j :: 0 <= i < NROWS && 0 <= j < NCOLS && (i, j) != (t.row, t.col) ==> u.grid[i][j] == t.grid[i][j]) &&
      (t.col + 1 < NCOLS ==> u.row == t.row && u.col == t.col + 1) &&
      (t.col + 1 == NCOLS ==> u.row == Min(NROWS - 1, t.row + 1) && u.col == 0) &&
      u.rend == t.rend && u.savedRow == t.savedRow && u.savedCol == t.savedCol && u.wrapping
  {
    if t.col + 1 == NCOLS {
      assert (t.col + 1) / NCOLS == 1 && (t.col + 1) % NCOLS == 0;
    } else {
      assert (t.col + 1) / NCOLS == 0 && (t.col + 1) % NCOLS == t.col + 1;
    }
  }

  /** The first multiple of 8 after col. */
  function NextTabStop(col: nat): (s: nat)
    ensures col < s <= col + 8 && s % 8 == 0
  {
    (col / 8 + 1) * 8
  }

  /** Below column 248, adding 8 and clearing the low three bits of the
      unsigned char gives the next tab stop. */
  lemma MaskTab(col: nat)
    requires col < 248
    ensures MaskF8(col + 8) == NextTabStop(col)
  {
    var v := col + 8;
    assert v % 256 == v;
    assert v / 8 == col / 8 + 1;
  }

  /** The cursor controls change the cursor only: LF goes to the start of the
      next row (the last row stays the last), CR to the start of the row, and
      an expanded TAB to the next tab stop, stopping at the last column. */
  lemma PutControl(t: Term, c: Byte, cfg: Config)
    requires t.Valid() && (c == LF || c == CR || (c == TAB && cfg.expandTab))
    ensures Put(t, c, cfg).Some?
    ensures var u := Put(t, c, cfg).value;
      u.grid == t.grid && u.rend == t.rend && u.savedRow == t.savedRow && u.savedCol == t.savedCol &&
      (c == LF ==> u.row == Min(NROWS - 1, t.row + 1) && u.col == 0) &&
      (c == CR ==> u.row == t.row && u.col == 0) &&
      (c == TAB ==> u.row == t.row && u.col == Min(NCOLS - 1, NextTabStop(t.col)))
  {
    if c == TAB {
      MaskTab(t.col);
    }
  }

  /** 0x1A stops the pass unless -z is given. */
  lemma PutSub(t: Term, cfg: Config)
    requires t.Valid()
    ensures Put(t, SUB, cfg).None? <==> !cfg.includeZ
  {
  }

  /** Each byte keeps the state sane. */
  lemma PutSane(t: Term, c: Byte, cfg: Config)
    requires Sane(t) && Put(t, c, cfg).Some?
    ensures Sane(Put(t, c, cfg).value)
  {
    var u := Put(t, c, cfg).value;
    if IsGlyph(c, cfg) {
      PutGlyph(t, c, cfg);
      forall i, j | 0 <= i < NROWS && 0 <= j < NCOLS
        ensures u.grid[i][j] == DefaultChar || Unchanged !in u.grid[i][j].flags
      {
        if (i, j) != (t.row, t.col) {
          assert u.grid[i][j] == t.grid[i][j];
        }
      }
    }
  }

  /** Each command keeps the state sane. */
  lemma PerformSane(t: Term, s: Csi, final: Byte)
    requires Sane(t) && Perform(t, s, final).Ok?
    ensures Sane(Perform(t, s, final).value)
  {
    if final == 'm' as int {
      ApplySgrsPlain(t.rend, if |s.params| == 0 then [0] else s.params);
    }
  }

  /** The parameters a command was given. */
  function Params(p: seq<int>, ques: bool): Csi
  {
    Csi(0, [], p, ques, 0)
  }

  /** `CSI 2 J` clears the whole screen and homes the cursor; the colours,
      flags and saved position stay. A second `CSI 2 J` changes nothing more. */
  lemma Erase(t: Term)
    requires t.Valid()
    ensures Perform(t, Params([2], false), 'J' as int).Ok?
    ensures var u := Perform(t, Params([2], false), 'J' as int).value;
      (forall i, j :: 0 <= i < NROWS && 0 <= j < NCOLS ==> u.grid[i][j] == DefaultChar) &&
      u.row == 0 && u.col == 0 && u.rend == t.rend &&
      u.savedRow == t.savedRow && u.savedCol == t.savedCol && u.wrapping == t.wrapping &&
      Perform(u, Params([2], false), 'J' as int) == Ok(u)
  {
  }

  /** `CSI s` then `CSI u` gives back the column exactly and the row reduced
      to an unsigned char, unless that row is 255, which reads as "never
      saved". */
  lemma SaveRestore(t: Term)
    requires t.Valid()
    ensures Perform(t, Params([], false), 's' as int).Ok?
    ensures var u := Perform(t, Params([], false), 's' as int).value;
      Perform(u, Params([], false), 'u' as int) ==
        if t.row % 256 == 255 then Err(RestoreBeforeSave)
        else Ok(t.(row := t.row % 256, savedRow := t.row % 256, savedCol := t.col))
  {
  }

  /** `CSI u` while the saved slot is still empty (row or column 255) is an
      error; so is a `u` with `?` or with a parameter, whatever the slot. */
  lemma RestoreFirst(t: Term, s: Csi)
    requires t.Valid()
    ensures s.ques || |s.params| != 0 ==> Perform(t, s, 'u' as int) == Err(BadSaveRestore('u' as int))
    ensures !s.ques && |s.params| == 0 && (t.savedRow == 255 || t.savedCol == 255) ==>
      Perform(t, s, 'u' as int) == Err(RestoreBeforeSave)
  {
  }

  /** Only `CSI s` writes the saved slot: a byte outside a sequence and
      every other command leave it as it was. */
  lemma OnlySaveSaves(t: Term, c: Byte, cfg: Config, s: Csi, final: Byte)
    requires t.Valid() && final != 's' as int
    ensures Put(t, c, cfg).Some? ==>
      Put(t, c, cfg).value.savedRow == t.savedRow && Put(t, c, cfg).value.savedCol == t.savedCol
    ensures Perform(t, s, final).Ok? ==>
      Perform(t, s, final).value.savedRow == t.savedRow && Perform(t, s, final).value.savedCol == t.savedCol
  {
  }

  /** `CSI ? 7 h` is the only accepted form of `h`, and it turns wrapping
      on and changes nothing else; in a reachable state, where wrapping is
      already on, it changes nothing at all. */
  lemma WrapOn(t: Term, s: Csi)
    requires t.Valid()
    ensures Perform(t, s, 'h' as int).Ok? <==> s.ques && |s.params| == 1 && s.params[0] == 7
    ensures Perform(t, s, 'h' as int).Ok? ==> Perform(t, s, 'h' as int) == Ok(t.(wrapping := true))
    ensures Sane(t) && Perform(t, s, 'h' as int).Ok? ==> Perform(t, s, 'h' as int) == Ok(t)
  {
  }

  /** CUP clamps `p - 1` into the screen, so that 0 and 1 both give the first
      row or column; with one parameter a `;` before it makes it the column;
      with three parameters nothing moves. */
  lemma CursorPosition(t: Term, p: int, q: int)
    requires t.Valid() && 0 <= p < 10000 && 0 <= q < 10000
    ensures var u := Perform(t, Params([p, q], false), 'H' as int).value;
      u.row == (if p == 0 then 0 else Min(p - 1, NROWS - 1)) &&
      u.col == (if q == 0 then 0 else Min(q - 1, NCOLS - 1))
    ensures var u := Perform(t, Csi(0, [], [p], false, 1), 'H' as int).value;
      u.row == 0 && u.col == (if p == 0 then 0 else Min(p - 1, NCOLS - 1))
    ensures var u := Perform(t, Params([p], false), 'H' as int).value;
      u.row == (if p == 0 then 0 else Min(p - 1, NROWS - 1)) && u.col == 0
    ensures Perform(t, Params([p, q, p], false), 'H' as int) == Ok(t)
    ensures Perform(t, Params([], false), 'H' as int) == Ok(t.(row := 0, col := 0))
  {
  }

  /** The move commands move by their parameter modulo 256 (1 when there is
      none): an explicit 0 or 256 does not move. */
  lemma MoveAmount(t: Term, final: Byte, p: int)
    requires t.Valid() && IsMove(final) && 0 <= p < 10000 && p % 256 == 0
    ensures Perform(t, Params([p], false), final) == Ok(t)
  {
  }

  /** Moving up and then down by the same amount comes back when the move up
      did not hit the top row, and likewise down then up away from the bottom,
      and back then forward, and forward then back. */
  lemma MovesUndo(t: Term, p: int)
    requires t.Valid() && 0 <= p < 256
    ensures p <= t.row ==>
      var u := Perform(t, Params([p], false), 'A' as int).value;
      Perform(u, Params([p], false), 'B' as int) == Ok(t)
    ensures t.row + p < NROWS ==>
      var u := Perform(t, Params([p], false), 'B' as int).value;
      Perform(u, Params([p], false), 'A' as int) == Ok(t)
    ensures p <= t.col ==>
      var u := Perform(t, Params([p], false), 'D' as int).value;
      Perform(u, Params([p], false), 'C' as int) == Ok(t)
    ensures t.col + p < NCOLS ==>
      var u := Perform(t, Params([p], false), 'C' as int).value;
      Perform(u, Params([p], false), 'D' as int) == Ok(t)
  {
  }

  /** The moves go by the parameter reduced to an unsigned char and stop at
      the edges of the screen. */
  lemma MovesClamp(t: Term, p: int)
    requires t.Valid() && 0 <= p < 10000
    ensures var d := p % 256;
      Perform(t, Params([p], false), 'A' as int).value.row == (if d > t.row then 0 else t.row - d)
    ensures var d := p % 256;
      Perform(t, Params([p], false), 'B' as int).value.row == Min(NROWS - 1, t.row + d)
    ensures var d := p % 256;
      Perform(t, Params([p], false), 'C' as int).value.col == Min(NCOLS - 1, t.col + d)
    ensures var d := p % 256;
      Perform(t, Params([p], false), 'D' as int).value.col == (if d > t.col then 0 else t.col - d)
  {
  }

  /** A move without a parameter moves by one, as a move by 1 does, and
      changes nothing but the cursor. */
  lemma MoveDefault(t: Term, final: Byte)
    requires t.Valid() && IsMove(final)
    ensures Perform(t, Params([], false), final) == Perform(t, Params([1], false), final)
    ensures var u := Perform(t, Params([], false), final).value;
      u == t.(row := u.row, col := u.col) &&
      (final == 'A' as int ==> u.row == (if t.row == 0 then 0 else t.row - 1) && u.col == t.col) &&
      (final == 'B' as int ==> u.row == Min(NROWS - 1, t.row + 1) && u.col == t.col) &&
      (final == 'C' as int ==> u.row == t.row && u.col == Min(NCOLS - 1, t.col + 1)) &&
      (final == 'D' as int ==> u.row == t.row && u.col == (if t.col == 0 then 0 else t.col - 1))
  {
  }

  /** The command letters read_ansi knows. */
  predicate Known(final: Byte)
  {
    final in {'m' as int, 'J' as int, 'h' as int, 'H' as int, 's' as int, 'u' as int} || IsMove(final)
  }

  /** The ways a complete sequence can be refused, listed by what is wrong
      with it rather than by command. */
  ghost predicate Rejected(t: Term, s: Csi, final: Byte)
  {
    var np := |s.params|;
    !Known(final) ||
    (s.ques && final != 'h' as int && final != 's' as int && final != 'u' as int) ||
    (final == 'J' as int && (np != 1 || s.params[0] != 2)) ||
    (final == 'h' as int && (!s.ques || np != 1 || s.params[0] != 7)) ||
    ((final == 's' as int || final == 'u' as int) && (s.ques || np != 0)) ||
    (final == 'u' as int && (t.savedRow == 255 || t.savedCol == 255)) ||
    (IsMove(final) && np > 1)
  }

  /** A command fails exactly when it is one of the refused forms. */
  lemma PerformFails(t: Term, s: Csi, final: Byte)
    requires t.Valid()
    ensures Perform(t, s, final).Err? <==> Rejected(t, s, final)
  {
  }
}
