/** read_ansi and its helpers (noansi.c:89-379): the byte-by-byte interpreter
    of CP437 text and the CSI control sequences of ECMA-48 (section 5.4) that
    ANSI art uses. The functions are the specification; the class Terminal
    and the methods ReadSequence and ReadAnsi are the interpreter itself,
    proved to compute what the functions say. */
module Interpreter {
  import opened Cells

  datatype Option<T> = None | Some(value: T)

  /** Every way doerror can be reached while reading; each aborts the run. */
  datatype Error =
    | EofAfterEsc                  // noansi.c:182-183
    | NotCsi(byte: Byte)           // noansi.c:184-186
    | SequenceTooLong              // noansi.c:192-194
    | NumberTooLarge               // noansi.c:200-201
    | QuestionAfterParameter       // noansi.c:213-215
    | PrivateNotAllowed(final: Byte)  // `?` with m, J, H, A, B, C, D
    | EraseParamCount              // noansi.c:240-242
    | EraseParamValue              // noansi.c:244-245
    | UnsupportedMode              // noansi.c:253-260
    | BadSaveRestore(final: Byte)  // noansi.c:284-287, 292-294
    | RestoreBeforeSave            // noansi.c:296-298
    | TooManyParameters(final: Byte)  // A, B, C, D with two or more parameters
    | UnknownFinal(final: Byte)    // noansi.c:371-373

  datatype Result<T> = Ok(value: T) | Err(error: Error)

  /** The two switches of the command line: -t and -z. */
  datatype Config = Config(expandTab: bool, includeZ: bool)

  const TAB: Byte := 0x09
  const LF: Byte := 0x0a
  const CR: Byte := 0x0d
  const SUB: Byte := 0x1a
  const ESC: Byte := 0x1b

  /** MAX(0, MIN(v, hi)), the clamp of a cursor position. */
  function Clamp(v: int, hi: nat): (r: nat)
    ensures r <= hi
    ensures 0 <= v <= hi ==> r == v
    ensures v < 0 ==> r == 0
    ensures v > hi ==> r == hi
  {
    if v > hi then hi else if v < 0 then 0 else v
  }

  /** Conversion of an int to an unsigned char: reduction modulo 256. */
  function U8(v: int): (r: nat)
    ensures r < 256 && (0 <= v < 256 ==> r == v)
  {
    v % 256
  }

  /** `v & 0xf8` for a non-negative v: bits 3 to 7 of v. */
  function MaskF8(v: nat): nat { (v % 256) / 8 * 8 }

  predicate IsDigit(d: int) { '0' as int <= d <= '9' as int }

  // ---------------------------------------------------------------------
  // Graphic rendition (handle_sgr)

  /** The current rendition: curfg, curbg and curflags. */
  datatype Rendition = Rendition(fg: Color, bg: Color, flags: set<Flag>)

  /** curfg = aWHITE, curbg = aBLACK, curflags = 0, as also set by SGR 0. */
  const InitialRendition: Rendition := Rendition(DefaultFg, DefaultBg, {})

  /** A rendition SGR can produce: a base colour each and at most one of
      Bold, Underline, Blink and Inverse. */
  ghost predicate Plain(r: Rendition)
  {
    r.fg < 8 && r.bg < 8 && r.flags in {{}, {Bold}, {Underline}, {Blink}, {Inverse}}
  }

  /** The codes handle_sgr acts on; every other code leaves the rendition as
      it is (8, 48, 53 and 55 silently, the rest after a warning). */
  predicate IsSgrCode(code: int)
  {
    code in {0, 1, 4, 5, 7, 39} || 30 <= code <= 37 || 40 <= code <= 47
  }

  /** handle_sgr. Each code changes only its own field; 0 resets all three;
      the flag codes replace the flag set instead of adding to it. */
  function HandleSgr(code: int, r: Rendition): (s: Rendition)
    ensures code == 0 ==> s == InitialRendition
    ensures code == 1 ==> s == r.(flags := {Bold})
    ensures code == 4 ==> s == r.(flags := {Underline})
    ensures code == 5 ==> s == r.(flags := {Blink})
    ensures code == 7 ==> s == r.(flags := {Inverse})
    ensures 30 <= code <= 37 ==> s == r.(fg := code - 30)
    ensures code == 39 ==> s == r.(fg := DefaultFg)
    ensures 40 <= code <= 47 ==> s == r.(bg := code - 40)
    ensures code != 0 && !(30 <= code <= 37) && code != 39 ==> s.fg == r.fg
    ensures code != 0 && !(40 <= code <= 47) ==> s.bg == r.bg
    ensures code !in {0, 1, 4, 5, 7} ==> s.flags == r.flags
    ensures !IsSgrCode(code) ==> s == r
    ensures Plain(r) ==> Plain(s)
  {
    if code == 0 then InitialRendition
    else if code == 1 then r.(flags := {Bold})
    else if code == 4 then r.(flags := {Underline})
    else if code == 5 then r.(flags := {Blink})
    else if code == 7 then r.(flags := {Inverse})
    else if 30 <= code <= 37 then r.(fg := code - 30)
    else if code == 39 then r.(fg := DefaultFg)
    else if 40 <= code <= 47 then r.(bg := code - 40)
    else r
  }

  /** handle_sgr applied to each code in turn, left to right. */
  function ApplySgrs(r: Rendition, codes: seq<int>): Rendition
  {
    if codes == [] then r
    else HandleSgr(codes[|codes| - 1], ApplySgrs(r, codes[..|codes| - 1]))
  }

  // ---------------------------------------------------------------------
  // The interpreter state

  /** The screen and the local variables of read_ansi that outlive one
      input byte: x (row), y (column), savedx, savedy, the rendition and
      wrapping. */
  datatype Term = Term(grid: Grid, row: nat, col: nat, savedRow: nat, savedCol: nat,
                       rend: Rendition, wrapping: bool)
  {
    /** The cursor is on the screen and the saved slot holds an unsigned
        char row and a column (or 255 for "never saved"). */
    ghost predicate Valid()
    {
      IsGrid(grid) && row < NROWS && col < NCOLS &&
      savedRow < 256 && (savedCol < NCOLS || savedCol == 255)
    }
  }

  /** The state when read_ansi starts on the screen g. */
  function Initial(g: Grid): Term
  {
    Term(g, 0, 0, 255, 255, InitialRendition, true)
  }

  /** One byte outside a control sequence (noansi.c:156-179). None means
      the run stops here, successfully (0x1A without -z). */
  function Put(t: Term, c: Byte, cfg: Config): (r: Option<Term>)
    requires t.Valid()
    ensures r.Some? ==> r.value.Valid()
  {
    if c == LF then Some(t.(row := Min(NROWS - 1, t.row + 1), col := 0))
    else if c == CR then Some(t.(col := 0))
    else if c == TAB && cfg.expandTab then Some(t.(col := Min(NCOLS - 1, MaskF8(t.col + 8))))
    else if c == SUB && !cfg.includeZ then None
    else
      var g := Write(t.grid, t.row, t.col, Cell(c, t.rend.fg, t.rend.bg, t.rend.flags));
      if t.wrapping then
        var y := t.col + 1;
        Some(t.(grid := g, row := Min(NROWS - 1, t.row + y / NCOLS), col := y % NCOLS))
      else
        Some(t.(grid := g, col := Min(NCOLS - 1, t.col + 1)))
  }

  // ---------------------------------------------------------------------
  // Control sequences: reading the parameters

  /** The locals of one control sequence: curseqlen, nbuf[0..bidx),
      params[0..np), quesflag and semicount. */
  datatype Csi = Csi(len: nat, digits: seq<Byte>, params: seq<int>, ques: bool, semis: nat)

  const CsiStart: Csi := Csi(0, [], [], false, 0)

  /** What the locals of a sequence can hold between two bytes. */
  ghost predicate Partial(s: Csi)
  {
    s.len < MAXSEQLEN && |s.digits| <= 4 && (forall k :: 0 <= k < |s.digits| ==> IsDigit(s.digits[k])) &&
    |s.params| <= 3 && (forall k :: 0 <= k < |s.params| ==> 0 <= s.params[k] < 10000)
  }

  function Pow10(n: nat): nat
  {
    if n == 0 then 1 else 10 * Pow10(n - 1)
  }

  /** atoi of the first n digits of ds. */
  function DecimalPrefix(ds: seq<Byte>, n: nat): (v: nat)
    requires n <= |ds| && forall k :: 0 <= k < |ds| ==> IsDigit(ds[k])
    ensures v < Pow10(n)
  {
    if n == 0 then 0
    else
      assert IsDigit(ds[n - 1]) && Pow10(n) == 10 * Pow10(n - 1);
      var high := DecimalPrefix(ds, n - 1);
      assert high * 10 <= (Pow10(n - 1) - 1) * 10;
      high * 10 + (ds[n - 1] - '0' as int)
  }

  /** atoi of a string of decimal digits. */
  function Decimal(ds: seq<Byte>): (v: nat)
    requires forall k :: 0 <= k < |ds| ==> IsDigit(ds[k])
    ensures v < Pow10(|ds|)
  {
    DecimalPrefix(ds, |ds|)
  }

  /** noansi.c:206-210: a pending number becomes a parameter if a slot is
      free; with all three slots taken the digits stay in nbuf. */
  function Flush(s: Csi): (r: Csi)
    requires Partial(s)
    ensures Partial(r)
  {
    if |s.digits| > 0 && |s.params| < 3 then
      assert Pow10(|s.digits|) <= 10000 by {
        assert Pow10(4) == 10000;
        if |s.digits| < 4 { assert Pow10(3) == 1000; }
        if |s.digits| < 3 { assert Pow10(2) == 100; }
      }
      s.(params := s.params + [Decimal(s.digits)], digits := [])
    else s
  }

  /** How the reading of a control sequence ends. */
  datatype Parsed =
    | Unterminated                             // end of input inside it
    | Interrupted                              // 0x1A without -z
    | Malformed(error: Error)
    | Complete(csi: Csi, final: Byte, next: nat)

  /** What one byte of a sequence does: the sequence goes on with new
      locals, the reading stops, or the byte is the final one. */
  datatype Move = Next(s: Csi) | Halt(p: Parsed) | Final(csi: Csi, final: Byte)

  /** One pass of the loop of noansi.c:190-221 on the byte d. */
  function Step(s: Csi, d: Byte, cfg: Config): (m: Move)
    requires Partial(s)
    ensures m.Next? ==> Partial(m.s) && m.s.len == s.len + 1
    ensures m.Halt? ==> !m.p.Complete? && !m.p.Unterminated?
    ensures m.Final? ==> Partial(m.csi) && !IsDigit(m.final) && m.final != '?' as int && m.final != ';' as int
    ensures m.Final? ==> m.final != SUB || cfg.includeZ
  {
    var len := s.len + 1;
    if len == MAXSEQLEN then Halt(Malformed(SequenceTooLong))
    else if d == SUB && !cfg.includeZ then Halt(Interrupted)
    else if IsDigit(d) then
      if |s.digits| == 4 then Halt(Malformed(NumberTooLarge))
      else Next(s.(len := len, digits := s.digits + [d]))
    else
      var f := Flush(s.(len := len));
      if d == '?' as int then
        if |f.params| != 0 then Halt(Malformed(QuestionAfterParameter))
        else Next(f.(ques := true))
      else if d == ';' as int then Next(f.(semis := f.semis + 1))
      else Final(f, d)
  }

  /** The bytes after `ESC [` from index k on, with the locals in s
      (noansi.c:190-221): a final byte ends the sequence. */
  function Scan(input: seq<Byte>, k: nat, s: Csi, cfg: Config): (r: Parsed)
    requires k <= |input| && Partial(s)
    ensures r.Complete? ==> k < r.next <= |input| && Partial(r.csi)
    ensures r.Complete? ==> !IsDigit(r.final) && r.final != '?' as int && r.final != ';' as int
    ensures r.Complete? ==> r.final != SUB || cfg.includeZ
    decreases |input| - k
  {
    if k == |input| then Unterminated
    else
      match Step(s, input[k], cfg)
      case Next(s') => Scan(input, k + 1, s', cfg)
      case Halt(p) => p
      case Final(f, d) => Complete(f, d, k + 1)
  }

  // ---------------------------------------------------------------------
  // Control sequences: the commands

  /** The final bytes A, B, C and D: cursor up, down, forward and back. */
  predicate IsMove(final: Byte)
  {
    final in {'A' as int, 'B' as int, 'C' as int, 'D' as int}
  }

  /** The switch on the final byte (noansi.c:222-374). */
  function Perform(t: Term, s: Csi, final: Byte): (r: Result<Term>)
    requires t.Valid()
    ensures r.Ok? ==> r.value.Valid()
  {
    var p, np := s.params, |s.params|;
    if final == 'm' as int then
      if s.ques then Err(PrivateNotAllowed(final))
      else Ok(t.(rend := ApplySgrs(t.rend, if np == 0 then [0] else p)))
    else if final == 'J' as int then
      if s.ques then Err(PrivateNotAllowed(final))
      else if np != 1 then Err(EraseParamCount)
      else if p[0] != 2 then Err(EraseParamValue)
      else Ok(t.(grid := Blank(), row := 0, col := 0))
    else if final == 'h' as int then
      if s.ques then
        if np != 1 || p[0] != 7 then Err(UnsupportedMode) else Ok(t.(wrapping := true))
      else Err(UnsupportedMode)
    else if final == 'H' as int then
      if s.ques then Err(PrivateNotAllowed(final))
      else if np == 0 then Ok(t.(row := 0, col := 0))
      else if np == 1 then
        if s.semis == 0 then Ok(t.(row := Clamp(p[0] - 1, NROWS - 1), col := 0))
        else Ok(t.(row := 0, col := Clamp(p[0] - 1, NCOLS - 1)))
      else if np == 2 then Ok(t.(row := Clamp(p[0] - 1, NROWS - 1), col := Clamp(p[1] - 1, NCOLS - 1)))
      else Ok(t)
    else if final == 's' as int then
      if s.ques || np != 0 then Err(BadSaveRestore(final))
      else Ok(t.(savedRow := U8(t.row), savedCol := t.col))
    else if final == 'u' as int then
      if s.ques || np != 0 then Err(BadSaveRestore(final))
      else if t.savedRow == 255 || t.savedCol == 255 then Err(RestoreBeforeSave)
      else Ok(t.(row := t.savedRow, col := t.savedCol))
    else if IsMove(final) then
      if s.ques then Err(PrivateNotAllowed(final))
      else if np > 1 then Err(TooManyParameters(final))
      else
        var delta := if np == 1 then U8(p[0]) else 1;
        if final == 'A' as int then Ok(t.(row := if delta > t.row then 0 else t.row - delta))
        else if final == 'B' as int then Ok(t.(row := Min(NROWS - 1, t.row + delta)))
        else if final == 'C' as int then Ok(t.(col := Min(NCOLS - 1, t.col + delta)))
        else Ok(t.(col := if delta > t.col then 0 else t.col - delta))
    else Err(UnknownFinal(final))
  }

  // ---------------------------------------------------------------------
  // The whole pass

  /** How read_ansi ends: normally (end of input or 0x1A) with the final
      state, or in doerror. */
  datatype Outcome = Finished(term: Term) | Aborted(error: Error)

  /** read_ansi from input index i on, in state t (noansi.c:151-378). */
  function Run(input: seq<Byte>, i: nat, t: Term, cfg: Config): (o: Outcome)
    requires i <= |input| && t.Valid()
    ensures o.Finished? ==> o.term.Valid()
    decreases |input| - i
  {
    if i == |input| then Finished(t)
    else if input[i] != ESC then
      match Put(t, input[i], cfg)
      case None => Finished(t)
      case Some(t') => Run(input, i + 1, t', cfg)
    else if i + 1 == |input| then Aborted(EofAfterEsc)
    else if input[i + 1] != '[' as int then Aborted(NotCsi(input[i + 1]))
    else
      match Scan(input, i + 2, CsiStart, cfg)
      case Unterminated => Finished(t)
      case Interrupted => Finished(t)
      case Malformed(e) => Aborted(e)
      case Complete(s, final, next) =>
        match Perform(t, s, final)
        case Err(e) => Aborted(e)
        case Ok(t') => Run(input, next, t', cfg)
  }

  // ---------------------------------------------------------------------
  // The interpreter

  /** The locals of read_ansi that persist from byte to byte, and the screen
      it writes to. */
  class Terminal {
    const screen: array2<Cell>
    var x: nat          // row (unsigned int)
    var y: nat          // column (unsigned char)
    var savedx: nat     // unsigned char
    var savedy: nat     // unsigned char
    var curfg: Color
    var curbg: Color
    var curflags: set<Flag>
    var wrapping: bool

    ghost predicate Valid()
      reads this
    {
      screen.Length0 == NROWS && screen.Length1 == NCOLS &&
      x < NROWS && y < NCOLS && savedx < 256 && (savedy < NCOLS || savedy == 255)
    }

    /** The state these variables and the screen stand for. */
    ghost function State(): (t: Term)
      reads this, screen
      requires Valid()
      ensures t.Valid()
    {
      Term(Snapshot(screen), x, y, savedx, savedy, Rendition(curfg, curbg, curflags), wrapping)
    }

    /** The initialisers of noansi.c:147-150. */
    constructor (screen: array2<Cell>)
      requires screen.Length0 == NROWS && screen.Length1 == NCOLS
      ensures this.screen == screen && Valid()
      ensures State() == Initial(Snapshot(screen))
    {
      this.screen := screen;
      y, savedx, savedy := 0, 255, 255;
      x := 0;
      curbg, curfg, curflags, wrapping := DefaultBg, DefaultFg, {}, true;
    }

    /** noansi.c:156-179: one byte that does not start a sequence. */
    method PutByte(c: Byte, cfg: Config) returns (stop: bool)
      requires Valid()
      modifies this, screen
      ensures Valid()
      ensures stop <==> Put(old(State()), c, cfg).None?
      ensures stop ==> State() == old(State())
      ensures !stop ==> State() == Put(old(State()), c, cfg).value
    {
      if c == LF {
        x := Min(NROWS - 1, x + 1);
        y := 0;
        return false;
      } else if c == CR {
        y := 0;
        return false;
      } else if c == TAB && cfg.expandTab {
        y := Min(NCOLS - 1, MaskF8(y + 8));
        return false;
      } else if c == SUB && !cfg.includeZ {
        return true;
      }
      WriteGlyph(c);
      return false;
    }

    /** noansi.c:170-178: the byte is stored at the cursor in the current
        rendition and the cursor advances. */
    method WriteGlyph(c: Byte)
      requires Valid()
      modifies this, screen
      ensures Valid()
      ensures var t := old(State());
        State() == t.(grid := Write(t.grid, t.row, t.col, Cell(c, t.rend.fg, t.rend.bg, t.rend.flags)),
                      row := if t.wrapping then Min(NROWS - 1, t.row + (t.col + 1) / NCOLS) else t.row,
                      col := if t.wrapping then (t.col + 1) % NCOLS else Min(NCOLS - 1, t.col + 1))
    {
      ghost var g := Snapshot(screen);
      var cell := Cell(c, curfg, curbg, curflags);
      screen[x, y] := cell;
      SnapshotIs(screen, Write(g, x, y, cell));
      if wrapping {
        y := y + 1;
        x := Min(NROWS - 1, x + y / NCOLS);
        y := y % NCOLS;
      } else {
        y := Min(NCOLS - 1, y + 1);
      }
    }

    /** The `m` case: handle_sgr on each parameter in turn, or on 0 when there
        is none. */
    method SelectRendition(params: seq<int>)
      requires Valid()
      modifies this
      ensures Valid()
      ensures State() == old(State()).(rend := ApplySgrs(old(State()).rend, if |params| == 0 then [0] else params))
    {
      var ps := if |params| == 0 then [0] else params;
      // curfg, curbg and curflags are updated in place by handle_sgr
      var r := Rendition(curfg, curbg, curflags);
      ghost var r0 := r;
      for i := 0 to |ps|
        invariant r == ApplySgrs(r0, ps[..i])
      {
        assert ps[..i + 1][..i] == ps[..i];
        r := HandleSgr(ps[i], r);
      }
      assert ps[..|ps|] == ps;
      curfg, curbg, curflags := r.fg, r.bg, r.flags;
    }

    /** The cases A, B, C and D: move the cursor by delta, stopping at the
        edge of the screen. */
    method MoveCursor(d: Byte, delta: nat)
      requires Valid() && IsMove(d)
      modifies this
      ensures Valid()
      ensures var t := old(State());
        State() == if d == 'A' as int then t.(row := if delta > t.row then 0 else t.row - delta)
          else if d == 'B' as int then t.(row := Min(NROWS - 1, t.row + delta))
          else if d == 'C' as int then t.(col := Min(NCOLS - 1, t.col + delta))
          else t.(col := if delta > t.col then 0 else t.col - delta)
    {
      if d == 'A' as int {
        if delta > x {
          x := 0;
        } else {
          x := x - delta;
        }
      } else if d == 'B' as int {
        x := Min(NROWS - 1, x + delta);
      } else if d == 'C' as int {
        y := Min(NCOLS - 1, y + delta);
      } else {
        if delta > y {
          y := 0;
        } else {
          y := y - delta;
        }
      }
    }

    /** The `H` case without `?`: row and column from the parameters, counted
        from 1; a single parameter is the column when a `;` came before it. */
    method SetPosition(s: Csi)
      requires Valid()
      modifies this
      ensures Valid()
      ensures var t, p := old(State()), s.params;
        State() == if |p| == 0 then t.(row := 0, col := 0)
          else if |p| == 1 then
            if s.semis == 0 then t.(row := Clamp(p[0] - 1, NROWS - 1), col := 0)
            else t.(row := 0, col := Clamp(p[0] - 1, NCOLS - 1))
          else if |p| == 2 then t.(row := Clamp(p[0] - 1, NROWS - 1), col := Clamp(p[1] - 1, NCOLS - 1))
          else t
    {
      var np := |s.params|;
      if np == 0 {
        x, y := 0, 0;
      } else if np == 1 {
        if s.semis == 0 {
          x := Clamp(s.params[0] - 1, NROWS - 1);
          y := 0;
        } else {
          x := 0;
          y := Clamp(s.params[0] - 1, NCOLS - 1);
        }
      } else if np == 2 {
        x := Clamp(s.params[0] - 1, NROWS - 1);
        y := Clamp(s.params[1] - 1, NCOLS - 1);
      }
    }

    /** The switch of noansi.c:211-375: the command a complete sequence
        names, or the error it is refused with. */
    method Execute(s: Csi, d: Byte) returns (err: Option<Error>)
      requires Valid()
      modifies this, screen
      ensures Valid()
      ensures err.None? <==> Perform(old(State()), s, d).Ok?
      ensures err.Some? ==> err.value == Perform(old(State()), s, d).error
      ensures err.None? ==> State() == Perform(old(State()), s, d).value
    {
      var np := |s.params|;
      if d == 'm' as int {
        if s.ques {
          return Some(PrivateNotAllowed(d));
        }
        SelectRendition(s.params);
      } else if d == 'J' as int {
        if s.ques {
          return Some(PrivateNotAllowed(d));
        }
        if np != 1 {
          return Some(EraseParamCount);
        }
        if s.params[0] != 2 {
          return Some(EraseParamValue);
        }
        ClearScreen(screen);
        x := 0;
        y := 0;
      } else if d == 'h' as int {
        if s.ques {
          if np != 1 || s.params[0] != 7 {
            return Some(UnsupportedMode);
          }
          wrapping := true;
        } else {
          return Some(UnsupportedMode);
        }
      } else if d == 'H' as int {
        if s.ques {
          return Some(PrivateNotAllowed(d));
        }
        SetPosition(s);
      } else if d == 's' as int {
        if s.ques || np != 0 {
          return Some(BadSaveRestore(d));
        }
        savedx := U8(x);
        savedy := y;
      } else if d == 'u' as int {
        if s.ques || np != 0 {
          return Some(BadSaveRestore(d));
        }
        if savedx == 255 || savedy == 255 {
          return Some(RestoreBeforeSave);
        }
        x := savedx;
        y := savedy;
      } else if IsMove(d) {
        if s.ques {
          return Some(PrivateNotAllowed(d));
        }
        if np > 1 {
          return Some(TooManyParameters(d));
        }
        MoveCursor(d, if np == 1 then U8(s.params[0]) else 1);
      } else {
        return Some(UnknownFinal(d));
      }
      return None;
    }
  }

  /** The locals of read_ansi's loop stand for s: the scalars directly, the
      pending digits as nbuf[0..bidx) and the parameters as params[0..np). */
  ghost predicate Holds(s: Csi, nbuf: array<Byte>, params: array<int>, len: nat, np: nat, bidx: nat, ques: bool, semis: nat)
    reads nbuf, params
  {
    len == s.len && ques == s.ques && semis == s.semis && np == |s.params| && bidx == |s.digits| &&
    bidx <= nbuf.Length && np <= params.Length && nbuf[..bidx] == s.digits && params[..np] == s.params
  }

  /** noansi.c:202-203: the digit d goes into nbuf after the bidx held. */
  method PushDigit(nbuf: array<Byte>, bidx: nat, d: Byte, ghost digits: seq<Byte>)
    requires bidx < nbuf.Length && nbuf[..bidx] == digits
    modifies nbuf
    ensures nbuf[..bidx + 1] == digits + [d]
  {
    nbuf[bidx] := d;
    assert nbuf[..bidx + 1] == nbuf[..bidx] + [d];
  }

  /** noansi.c:206-210 on the arrays: Flush of the locals s. */
  method FlushDigits(nbuf: array<Byte>, params: array<int>, np: nat, bidx: nat, ghost s: Csi)
    returns (np': nat, bidx': nat)
    requires Partial(s) && np == |s.params| && bidx == |s.digits|
    requires bidx <= nbuf.Length && np <= params.Length == 3 && nbuf[..bidx] == s.digits && params[..np] == s.params
    modifies params
    ensures var f := Flush(s); np' == |f.params| && bidx' == |f.digits| && nbuf[..bidx'] == f.digits && params[..np'] == f.params
  {
    np', bidx' := np, bidx;
    if bidx > 0 && np < 3 {
      params[np] := Decimal(nbuf[..bidx]);
      np', bidx' := np + 1, 0;
      assert params[..np'] == s.params + [Decimal(s.digits)];
    }
  }

  /** One pass of the loop of noansi.c:190-221 on the byte d, whose successor
      is at index next: the locals become those Step gives, or the reading
      stops with what Step says. */
  method Absorb(nbuf: array<Byte>, params: array<int>, len: nat, np: nat, bidx: nat, ques: bool, semis: nat,
                d: Byte, next: nat, cfg: Config, ghost s: Csi)
    returns (stop: Option<Parsed>, len': nat, np': nat, bidx': nat, ques': bool, semis': nat)
    requires nbuf.Length == 5 && params.Length == 3 && Partial(s) && Holds(s, nbuf, params, len, np, bidx, ques, semis)
    modifies nbuf, params
    ensures match Step(s, d, cfg)
      case Next(s') => stop == None && Holds(s', nbuf, params, len', np', bidx', ques', semis')
      case Halt(p) => stop == Some(p)
      case Final(f, _) => stop == Some(Complete(f, d, next))
  {
    stop := None;
    len', np', bidx', ques', semis' := len + 1, np, bidx, ques, semis;
    if len' == MAXSEQLEN {
      stop := Some(Malformed(SequenceTooLong));
    } else if d == SUB && !cfg.includeZ {
      stop := Some(Interrupted);
    } else if IsDigit(d) {
      if bidx == 4 {
        stop := Some(Malformed(NumberTooLarge));
      } else {
        PushDigit(nbuf, bidx, d, s.digits);
        bidx' := bidx + 1;
      }
    } else {
      np', bidx' := FlushDigits(nbuf, params, np, bidx, s.(len := len'));
      if d == '?' as int {
        if np' != 0 {
          stop := Some(Malformed(QuestionAfterParameter));
        } else {
          ques' := true;
        }
      } else if d == ';' as int {
        semis' := semis + 1;
      } else {
        stop := Some(Complete(Csi(len', nbuf[..bidx'], params[..np'], ques', semis'), d, next));
      }
    }
  }

  /** noansi.c:190-221: reads the bytes of a sequence after `ESC [` from
      index start on, into the fixed buffers nbuf[5] and params[3]. */
  method ReadSequence(input: seq<Byte>, start: nat, cfg: Config) returns (p: Parsed)
    requires start <= |input|
    ensures p == Scan(input, start, CsiStart, cfg)
  {
    var params := new int[3](_ => -1);
    var nbuf := new Byte[5](_ => 0);
    var np, bidx, quesflag, semicount := 0, 0, false, 0;
    var curseqlen := 0;
    ghost var s := CsiStart;
    var k := start;
    while k < |input|
      invariant start <= k <= |input| && Partial(s) && Holds(s, nbuf, params, curseqlen, np, bidx, quesflag, semicount)
      invariant Scan(input, k, s, cfg) == Scan(input, start, CsiStart, cfg)
      decreases |input| - k
    {
      ghost var m := Step(s, input[k], cfg);
      var stop;
      stop, curseqlen, np, bidx, quesflag, semicount :=
        Absorb(nbuf, params, curseqlen, np, bidx, quesflag, semicount, input[k], k + 1, cfg, s);
      if stop.Some? {
        return stop.value;
      }
      s, k := m.s, k + 1;
    }
    return Unterminated;
  }

  /** How ReadAnsi ended: normally, or in doerror with this error. */
  datatype Status = Done | Abort(error: Error)

  /** read_ansi: interprets the input into the screen. On a normal end the
      screen holds the grid Run computes; on an abort the process ends and
      the screen is not looked at again. */
  method ReadAnsi(screen: array2<Cell>, input: seq<Byte>, cfg: Config) returns (status: Status)
    requires screen.Length0 == NROWS && screen.Length1 == NCOLS
    modifies screen
    ensures var o := Run(input, 0, Initial(old(Snapshot(screen))), cfg);
      (status.Done? <==> o.Finished?) &&
      (status.Abort? ==> status.error == o.error) &&
      (status.Done? ==> Snapshot(screen) == o.term.grid)
  {
    ghost var total := Run(input, 0, Initial(Snapshot(screen)), cfg);
    var term := new Terminal(screen);
    var i := 0;
    while i < |input|
      invariant i <= |input| && term.screen == screen && term.Valid()
      invariant Run(input, i, term.State(), cfg) == total
      decreases |input| - i
    {
      var c := input[i];
      if c != ESC {
        var stop := term.PutByte(c, cfg);
        if stop {
          return Done;
        }
        i := i + 1;
        continue;
      }
      if i + 1 == |input| {
        return Abort(EofAfterEsc);
      }
      var d := input[i + 1];
      if d != '[' as int {
        return Abort(NotCsi(d));
      }
      var parsed := ReadSequence(input, i + 2, cfg);
      match parsed
      case Unterminated =>
        i := |input|;
      case Interrupted =>
        return Done;
      case Malformed(e) =>
        return Abort(e);
      case Complete(s, final, next) =>
        var err := term.Execute(s, final);
        if err.Some? {
          return Abort(err.value);
        }
        i := next;
    }
    return Done;
  }
}
