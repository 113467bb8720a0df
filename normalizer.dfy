/** normalize (noansi.c:445-477): the Bold, BgBold and Inverse flags are
    resolved into the two colours of each written cell. */
module Normalizer {
  import opened Cells

  /** `v |= 8` on a 4-bit colour: the bright variant of v. */
  function Bright(v: Color): (r: Color)
    ensures 8 <= r && r % 8 == v % 8
  {
    if v < 8 then v + 8 else v
  }

  /** The colour a written cell's glyph appears in: the background side when
      Inverse is set, brightened by the flag belonging to that side. */
  function ShownFg(c: Cell): Color
  {
    if Inverse in c.flags then
      (if BgBold in c.flags then Bright(c.bg) else c.bg)
    else
      (if Bold in c.flags then Bright(c.fg) else c.fg)
  }

  /** The colour a written cell's background appears in. */
  function ShownBg(c: Cell): Color
  {
    if Inverse in c.flags then
      (if Bold in c.flags then Bright(c.fg) else c.fg)
    else
      (if BgBold in c.flags then Bright(c.bg) else c.bg)
  }

  /** One cell of normalize: the default cell is skipped; any other cell keeps
      its glyph, is shown in the colours its flags call for, and loses every
      flag. */
  function NormalizeCell(c: Cell): (r: Cell)
    ensures c == DefaultChar ==> r == c
    ensures c != DefaultChar ==> r == Cell(c.ch, ShownFg(c), ShownBg(c), {})
    ensures r == DefaultChar <==> c == DefaultChar
  {
    if c == DefaultChar then c
    else
      var fg := if Bold in c.flags then Bright(c.fg) else c.fg;
      var bg := if BgBold in c.flags then Bright(c.bg) else c.bg;
      if Inverse in c.flags then Cell(c.ch, bg, fg, {}) else Cell(c.ch, fg, bg, {})
  }

  /** The whole-screen pass. */
  function Resolve(g: Grid): (h: Grid)
    requires IsGrid(g)
    ensures IsGrid(h)
  {
    MapCells(g, NormalizeCell)
  }

  /** A grid in which every written cell has no flags left. */
  ghost predicate Resolved(g: Grid)
    requires IsGrid(g)
  {
    forall i, j :: 0 <= i < NROWS && 0 <= j < NCOLS && g[i][j] != DefaultChar ==> g[i][j].flags == {}
  }

  /** normalize on the screen array. */
  method Normalize(screen: array2<Cell>)
    requires screen.Length0 == NROWS && screen.Length1 == NCOLS
    modifies screen
    ensures Snapshot(screen) == Resolve(old(Snapshot(screen)))
  {
    ghost var g := Snapshot(screen);
    for i := 0 to NROWS
      invariant forall r, k :: 0 <= r < i && 0 <= k < NCOLS ==> screen[r, k] == NormalizeCell(g[r][k])
      invariant forall r, k :: i <= r < NROWS && 0 <= k < NCOLS ==> screen[r, k] == g[r][k]
    {
      for j := 0 to NCOLS
        invariant forall r, k :: 0 <= r < i && 0 <= k < NCOLS ==> screen[r, k] == NormalizeCell(g[r][k])
        invariant forall k :: 0 <= k < j ==> screen[i, k] == NormalizeCell(g[i][k])
        invariant forall r, k :: 0 <= r < NROWS && 0 <= k < NCOLS && (r > i || (r == i && k >= j)) ==> screen[r, k] == g[r][k]
      {
        var c := screen[i, j];
        if c == DefaultChar {
          continue;
        }
        var fgcolor, bgcolor := c.fg, c.bg;
        if Bold in c.flags {
          fgcolor := Bright(fgcolor);
        }
        if BgBold in c.flags {
          bgcolor := Bright(bgcolor);
        }
        if Inverse in c.flags {
          var x := bgcolor;
          bgcolor := fgcolor;
          fgcolor := x;
        }
        screen[i, j] := Cell(c.ch, fgcolor, bgcolor, {});
      }
    }
    SnapshotIs(screen, Resolve(g));
  }

  /** After the pass no written cell carries a flag. */
  lemma ResolveResolves(g: Grid)
    requires IsGrid(g)
    ensures Resolved(Resolve(g))
  {
  }

  /** Normalizing a cell twice is normalizing it once. */
  lemma NormalizeCellIdempotent(c: Cell)
    ensures NormalizeCell(NormalizeCell(c)) == NormalizeCell(c)
  {
  }

  /** A second pass of normalize changes nothing. */
  lemma ResolveIdempotent(g: Grid)
    requires IsGrid(g)
    ensures Resolve(Resolve(g)) == Resolve(g)
  {
    var h := Resolve(g);
    forall i, j | 0 <= i < NROWS && 0 <= j < NCOLS
      ensures Resolve(h)[i][j] == h[i][j]
    {
      NormalizeCellIdempotent(g[i][j]);
    }
    SameGrid(Resolve(h), h);
  }
}
