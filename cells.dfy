/** The screen buffer: the packed cell encoding, the 1024 x 80 grid, and the
    two whole-grid passes that do not interpret anything (noansi.c:26-73,
    138-145, 534-543). */
module Cells {

  const NCOLS: nat := 80
  const NROWS: nat := 1024
  const MAXSEQLEN: nat := 64

  /** MIN(x, y). */
  function Min(a: int, b: int): int { if a > b then b else a }

  /** A byte of input or output. */
  type Byte = b: int | 0 <= b < 256

  /** A 4-bit colour field of a cell. */
  type Color = c: int | 0 <= c < 16

  /** The style bits of a cell; Unchanged marks only the default cell. */
  datatype Flag = Bold | Underline | Blink | Inverse | BgBold | Unchanged

  /** One screen position: glyph, foreground, background and flags. */
  datatype Cell = Cell(ch: Byte, fg: Color, bg: Color, flags: set<Flag>)

  const DefaultFg: Color := 7   // aWHITE
  const DefaultBg: Color := 0   // aBLACK

  /** The cell of a position nothing has written to. */
  const DefaultChar: Cell := Cell(32, DefaultFg, DefaultBg, {Unchanged})

  /** The bit of the packed word that carries a flag (ACF_BOLD and so on). */
  function FlagBit(f: Flag): nat
  {
    match f
    case Bold => 0x10000
    case Underline => 0x20000
    case Blink => 0x40000
    case Inverse => 0x80000
    case BgBold => 0x100000
    case Unchanged => 0x200000
  }

  function Bit(b: bool): nat { if b then 1 else 0 }

  /** The flags of a packed word shifted down by 16 bits. */
  function FlagMask(s: set<Flag>): (m: nat)
    ensures m < 64
  {
    Bit(Bold in s) + 2 * Bit(Underline in s) + 4 * Bit(Blink in s) +
    8 * Bit(Inverse in s) + 16 * Bit(BgBold in s) + 32 * Bit(Unchanged in s)
  }

  /** The flag bits of a packed word (bits 16 to 21). */
  function FlagWord(s: set<Flag>): nat
  {
    0x10000 * FlagMask(s)
  }

  /** AC(chr, fg, bg, flags): the 32-bit word a cell is stored as. The fields do
      not overlap, so the bitwise or of the source is a sum here. */
  function Pack(c: Cell): (w: nat)
    ensures w < 0x400000
  {
    c.ch + 0x100 * c.fg + 0x1000 * c.bg + FlagWord(c.flags)
  }

  /** ACCHAR, ACFG, ACBG and ACFLAGS, and the test `w & flag`. */
  function AcChar(w: nat): Byte { w % 0x100 }
  function AcFg(w: nat): Color { (w / 0x100) % 0x10 }
  function AcBg(w: nat): Color { (w / 0x1000) % 0x10 }
  function AcFlags(w: nat): nat { (w / 0x10000) * 0x10000 }
  predicate HasFlag(w: nat, f: Flag) { (w / FlagBit(f)) % 2 == 1 }

  /** Bit k of the packed word (k = 16..21) says whether the k-th flag is set. */
  lemma FlagBits(c: Cell, f: Flag)
    ensures HasFlag(Pack(c), f) <==> f in c.flags
  {
    var s := c.flags;
    WordBits(Pack(c), c.ch + 0x100 * c.fg + 0x1000 * c.bg,
      Bit(Bold in s), Bit(Underline in s), Bit(Blink in s), Bit(Inverse in s), Bit(BgBold in s), Bit(Unchanged in s));
  }

  /** The six flag bits of a word made of a 16-bit part and six bits above it. */
  lemma WordBits(w: nat, low: nat, b0: nat, b1: nat, b2: nat, b3: nat, b4: nat, b5: nat)
    requires low < 0x10000 && b0 <= 1 && b1 <= 1 && b2 <= 1 && b3 <= 1 && b4 <= 1 && b5 <= 1
    requires w == low + 0x10000 * b0 + 0x20000 * b1 + 0x40000 * b2 + 0x80000 * b3 + 0x100000 * b4 + 0x200000 * b5
    ensures (w / 0x10000) % 2 == b0 && (w / 0x20000) % 2 == b1 && (w / 0x40000) % 2 == b2
    ensures (w / 0x80000) % 2 == b3 && (w / 0x100000) % 2 == b4 && (w / 0x200000) % 2 == b5
  {
    BitAt(w, low, 0x10000, b0, b1 + 2 * b2 + 4 * b3 + 8 * b4 + 16 * b5);
    BitAt(w, low + 0x10000 * b0, 0x20000, b1, b2 + 2 * b3 + 4 * b4 + 8 * b5);
    BitAt(w, low + 0x10000 * b0 + 0x20000 * b1, 0x40000, b2, b3 + 2 * b4 + 4 * b5);
    BitAt(w, low + 0x10000 * b0 + 0x20000 * b1 + 0x40000 * b2, 0x80000, b3, b4 + 2 * b5);
    BitAt(w, low + 0x10000 * b0 + 0x20000 * b1 + 0x40000 * b2 + 0x80000 * b3, 0x100000, b4, b5);
    BitAt(w, low + 0x10000 * b0 + 0x20000 * b1 + 0x40000 * b2 + 0x80000 * b3 + 0x100000 * b4, 0x200000, b5, 0);
  }

  /** Reading one flag bit m of w = below + m * (bit + 2 * rest). */
  lemma BitAt(w: nat, below: nat, m: nat, bit: nat, rest: nat)
    requires m == 0x10000 || m == 0x20000 || m == 0x40000 || m == 0x80000 || m == 0x100000 || m == 0x200000
    requires below < m && bit <= 1 && w == below + m * bit + 2 * m * rest
    ensures (w / m) % 2 == bit
  {
    Quotient(w, below, m, bit + 2 * rest);
    Parity(w / m, bit, rest);
  }

  /** The lowest bit of bit + 2 * rest. */
  lemma Parity(k: nat, bit: nat, rest: nat)
    requires bit <= 1 && k == bit + 2 * rest
    ensures k % 2 == bit
  {
  }

  /** Dividing w = below + m * k by m, for the flag bits m. */
  lemma Quotient(w: nat, below: nat, m: nat, k: nat)
    requires m == 0x10000 || m == 0x20000 || m == 0x40000 || m == 0x80000 || m == 0x100000 || m == 0x200000
    requires below < m && w == below + m * k
    ensures w / m == k
  {
    if m == 0x10000 {
      assert w == below + 0x10000 * k;
    } else if m == 0x20000 {
      assert w == below + 0x20000 * k;
    } else if m == 0x40000 {
      assert w == below + 0x40000 * k;
    } else if m == 0x80000 {
      assert w == below + 0x80000 * k;
    } else if m == 0x100000 {
      assert w == below + 0x100000 * k;
    } else {
      assert w == below + 0x200000 * k;
    }
  }

  /** Unpacking a packed cell gives back each of its fields. */
  lemma Unpack(c: Cell)
    ensures AcChar(Pack(c)) == c.ch && AcFg(Pack(c)) == c.fg && AcBg(Pack(c)) == c.bg
    ensures AcFlags(Pack(c)) == FlagWord(c.flags)
    ensures forall f :: HasFlag(Pack(c), f) <==> f in c.flags
  {
    var w, high := Pack(c), FlagMask(c.flags);
    assert w / 0x100 == c.fg + 0x10 * (c.bg + 0x10 * high);
    assert w / 0x1000 == c.bg + 0x10 * high;
    assert w / 0x10000 == high;
    forall f ensures HasFlag(Pack(c), f) <==> f in c.flags {
      FlagBits(c, f);
    }
  }

  /** Comparing packed words, as the source does, is comparing cells. */
  lemma PackInjective(a: Cell, b: Cell)
    ensures Pack(a) == Pack(b) <==> a == b
  {
    if Pack(a) == Pack(b) {
      Unpack(a);
      Unpack(b);
      assert forall f :: f in a.flags <==> f in b.flags;
    }
  }

  /** The word of the default cell is AC(' ', aWHITE, aBLACK, ACF_UNCHANGED). */
  lemma DefaultWord()
    ensures Pack(DefaultChar) == 0x200720
  {
  }

  /** A cell packs to 0 exactly when it is a black-on-black NUL without flags. */
  lemma ZeroWord(c: Cell)
    ensures Pack(c) == 0 <==> c == Cell(0, 0, 0, {})
  {
    if Pack(c) == 0 {
      Unpack(c);
    }
  }

  type Grid = seq<seq<Cell>>

  /** A value of the screen: NROWS rows of NCOLS cells. */
  ghost predicate IsGrid(g: Grid)
  {
    |g| == NROWS && forall i :: 0 <= i < NROWS ==> |g[i]| == NCOLS
  }

  /** The screen with every cell equal to the default cell. */
  function Blank(): (g: Grid)
    ensures IsGrid(g)
    ensures forall i, j :: 0 <= i < NROWS && 0 <= j < NCOLS ==> g[i][j] == DefaultChar
  {
    seq(NROWS, i => seq(NCOLS, j => DefaultChar))
  }

  /** `screen[row][col] = c`. */
  function Write(g: Grid, row: nat, col: nat, c: Cell): (h: Grid)
    requires IsGrid(g) && row < NROWS && col < NCOLS
    ensures IsGrid(h) && h[row][col] == c
    ensures forall i, j :: 0 <= i < NROWS && 0 <= j < NCOLS && (i, j) != (row, col) ==> h[i][j] == g[i][j]
  {
    g[row := g[row][col := c]]
  }

  /** The grid with f applied to every cell: the shape of the per-cell passes. */
  function MapCells(g: Grid, f: Cell -> Cell): (h: Grid)
    requires IsGrid(g)
    ensures IsGrid(h)
    ensures forall i, j :: 0 <= i < NROWS && 0 <= j < NCOLS ==> h[i][j] == f(g[i][j])
  {
    seq(NROWS, i requires 0 <= i < NROWS => seq(NCOLS, j requires 0 <= j < NCOLS => f(g[i][j])))
  }

  /** Two grids that agree cell by cell are equal. */
  lemma SameGrid(g: Grid, h: Grid)
    requires IsGrid(g) && IsGrid(h)
    requires forall i, j :: 0 <= i < NROWS && 0 <= j < NCOLS ==> g[i][j] == h[i][j]
    ensures g == h
  {
    forall i | 0 <= i < NROWS
      ensures g[i] == h[i]
    {
      assert forall j :: 0 <= j < NCOLS ==> g[i][j] == h[i][j];
    }
  }

  /** The value held by a screen array. */
  ghost function Snapshot(a: array2<Cell>): (g: Grid)
    reads a
    ensures |g| == a.Length0
    ensures forall i :: 0 <= i < a.Length0 ==> |g[i]| == a.Length1
    ensures forall i, j :: 0 <= i < a.Length0 && 0 <= j < a.Length1 ==> g[i][j] == a[i, j]
  {
    seq(a.Length0, i requires 0 <= i < a.Length0 reads a =>
      seq(a.Length1, j requires 0 <= j < a.Length1 reads a => a[i, j]))
  }

  /** The screen array holds the grid g. */
  lemma SnapshotIs(a: array2<Cell>, g: Grid)
    requires a.Length0 == NROWS && a.Length1 == NCOLS && IsGrid(g)
    requires forall i, j :: 0 <= i < NROWS && 0 <= j < NCOLS ==> a[i, j] == g[i][j]
    ensures Snapshot(a) == g
  {
    SameGrid(Snapshot(a), g);
  }

  /** clear_screen: every cell becomes the default cell. Since the result does
      not depend on the old contents, clearing twice is clearing once. */
  method ClearScreen(screen: array2<Cell>)
    requires screen.Length0 == NROWS && screen.Length1 == NCOLS
    modifies screen
    ensures Snapshot(screen) == Blank()
  {
    for i := 0 to NROWS
      invariant forall r, c :: 0 <= r < i && 0 <= c < NCOLS ==> screen[r, c] == DefaultChar
    {
      for j := 0 to NCOLS
        invariant forall r, c :: 0 <= r < i && 0 <= c < NCOLS ==> screen[r, c] == DefaultChar
        invariant forall c :: 0 <= c < j ==> screen[i, c] == DefaultChar
      {
        screen[i, j] := DefaultChar;
      }
    }
    SnapshotIs(screen, Blank());
  }

  /** check: true when no cell of the screen is stored as the word 0. */
  method Check(screen: array2<Cell>) returns (ok: bool)
    requires screen.Length0 == NROWS && screen.Length1 == NCOLS
    ensures ok <==> forall i, j :: 0 <= i < NROWS && 0 <= j < NCOLS ==> Pack(screen[i, j]) != 0
  {
    for i := 0 to NROWS
      invariant forall r, c :: 0 <= r < i && 0 <= c < NCOLS ==> Pack(screen[r, c]) != 0
    {
      for j := 0 to NCOLS
        invariant forall c :: 0 <= c < j ==> Pack(screen[i, c]) != 0
      {
        if Pack(screen[i, j]) == 0 {
          return false;
        }
      }
    }
    return true;
  }
}
